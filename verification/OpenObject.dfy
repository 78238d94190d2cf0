/**
 Typed objects with room for keys that their type does not know (pkg/cloudinit/networkconfig/codec.go). A typed
 value is the object that it encodes to on its own.
 */
module OpenObject {
  import opened Records

  datatype Json =
    | Null
    | Bool(b: bool)
    | Number(literal: string)
    | Text(s: string)
    | Array(items: seq<Json>)
    | Object(members: map<string, Json>)

  /** A value in memory: a number is kept as its literal, or in a numeric type that writes that literal. */
  datatype Value =
    | Nil
    | Flag(b: bool)
    | Literal(literal: string)
    | Numeric(literal: string)
    | Str(s: string)
    | List(items: seq<Value>)
    | Dict(members: map<string, Value>)

  function Encoded(v: Value): Json {
    match v
    case Nil => Null
    case Flag(b) => Bool(b)
    case Literal(literal) => Number(literal)
    case Numeric(literal) => Number(literal)
    case Str(s) => Text(s)
    case List(items) => Array(seq(|items|, i requires 0 <= i < |items| => Encoded(items[i])))
    case Dict(members) => Object(map k | k in members :: Encoded(members[k]))
  }

  function Decoded(j: Json): Value {
    match j
    case Null => Nil
    case Bool(b) => Flag(b)
    case Number(literal) => Literal(literal)
    case Text(s) => Str(s)
    case Array(items) => List(seq(|items|, i requires 0 <= i < |items| => Decoded(items[i])))
    case Object(members) => Dict(map k | k in members :: Decoded(members[k]))
  }

  /** The same value with every number as its literal. */
  function Exact(v: Value): Value {
    match v
    case Numeric(literal) => Literal(literal)
    case List(items) => List(seq(|items|, i requires 0 <= i < |items| => Exact(items[i])))
    case Dict(members) => Dict(map k | k in members :: Exact(members[k]))
    case _ => v
  }

  lemma {:induction false} ValueRoundTrip(v: Value)
    ensures Decoded(Encoded(v)) == Exact(v)
  {
    match v {
      case List(items) =>
        forall i | 0 <= i < |items| ensures Decoded(Encoded(items[i])) == Exact(items[i]) { ValueRoundTrip(items[i]); }
      case Dict(members) =>
        forall k | k in members ensures Decoded(Encoded(members[k])) == Exact(members[k]) { ValueRoundTrip(members[k]); }
      case _ =>
    }
  }

  lemma {:induction false} JsonRoundTrip(j: Json)
    ensures Encoded(Decoded(j)) == j
  {
    match j {
      case Array(items) =>
        forall i | 0 <= i < |items| ensures Encoded(Decoded(items[i])) == items[i] { JsonRoundTrip(items[i]); }
      case Object(members) =>
        forall k | k in members ensures Encoded(Decoded(members[k])) == members[k] { JsonRoundTrip(members[k]); }
      case _ =>
    }
  }

  // ---------- the generated type ----------

  const ADDITIONAL := "AdditionalProperties"

  /** A field of the generated struct and the key of its tag; "-" is no key. */
  datatype Field = Field(name: string, key: string)

  function Known(fields: seq<Field>): set<string> {
    set f | f in fields && f.key != "-" :: f.key
  }

  /** Keys that additional properties may not use. */
  function Reserved(fields: seq<Field>): set<string> {
    set f | f in fields && f.name != ADDITIONAL :: f.key
  }

  /** As the generator writes it: only the field of the additional properties is without a key. */
  predicate Generated(fields: seq<Field>) {
    forall f :: f in fields ==> (f.name == ADDITIONAL <==> f.key == "-")
  }

  datatype Opened = Opened(known: map<string, Json>, extra: map<string, Value>)

  function OpenForm(fields: seq<Field>, raw: map<string, Json>): Opened {
    Opened(map k | k in raw && k in Known(fields) :: raw[k],
           map k | k in raw && k !in Known(fields) :: Decoded(raw[k]))
  }

  function CloseForm(fields: seq<Field>, typed: map<string, Json>, extra: map<string, Value>): Option<map<string,
                     Json>> {
    if extra.Keys !! Reserved(fields) then Some(typed + EncodedAll(extra)) else None
  }

  function EncodedAll(extra: map<string, Value>): map<string, Json> {
    map k | k in extra :: Encoded(extra[k])
  }

  /** Takes the fields' keys out of the object, one field at a time, and reads what is left as it is. */
  method Unmarshal(fields: seq<Field>, object_: map<string, Json>, valid: map<string, Json> -> bool)
    returns (res: Option<Opened>)
    ensures res == if valid(OpenForm(fields, object_).known) then Some(OpenForm(fields, object_)) else None
  {
    var raw := object_;
    var known: map<string, Json> := map[];
    for i := 0 to |fields|
      invariant forall k :: k in known <==> k in object_ && k in Known(fields[..i])
      invariant forall k :: k in known ==> known[k] == object_[k]
      invariant raw == object_ - known.Keys
    {
      KnownMore(fields, i);
      var key := fields[i].key;
      if key != "-" && key in raw {
        known := known[key := raw[key]];
        raw := raw - {key};
      }
    }
    assert fields[..|fields|] == fields;
    assert known == OpenForm(fields, object_).known;
    if !valid(known) { return None; }
    var extra := ReadAll(raw);
    assert extra == OpenForm(fields, object_).extra;
    res := Some(Opened(known, extra));
  }

  lemma KnownMore(fields: seq<Field>, i: nat)
    requires i < |fields|
    ensures Known(fields[..i + 1]) == Known(fields[..i]) + (if fields[i].key == "-" then {} else {fields[i].key})
  {
    assert fields[..i + 1] == fields[..i] + [fields[i]];
  }

  method ReadAll(raw: map<string, Json>) returns (extra: map<string, Value>)
    ensures extra == map k | k in raw :: Decoded(raw[k])
  {
    extra := map[];
    var rest := raw.Keys;
    while rest != {}
      invariant rest <= raw.Keys && extra == map k | k in raw && k !in rest :: Decoded(raw[k])
      decreases rest
    {
      var key :| key in rest;
      rest := rest - {key};
      extra := extra[key := Decoded(raw[key])];
    }
  }

  /** Adds the additional properties to the typed object, each checked against every field. */
  method Marshal(fields: seq<Field>, typed: map<string, Json>, additional: Option<map<string, Value>>)
    returns (res: Option<map<string, Json>>)
    ensures res == CloseForm(fields, typed, match additional case Some(extra) => extra case None => map[])
  {
    if additional.None? {
      var none: map<string, Value> := map[];
      assert typed + EncodedAll(none) == typed;
      return Some(typed);
    }
    var extra := additional.value;
    var object_ := typed;
    var rest := extra.Keys;
    while rest != {}
      invariant rest <= extra.Keys && (extra.Keys - rest) !! Reserved(fields)
      invariant object_ == typed + EncodedAll(extra - rest)
      decreases rest
    {
      var key :| key in rest;
      for i := 0 to |fields|
        invariant forall j :: 0 <= j < i ==> fields[j].name == ADDITIONAL || fields[j].key != key
      {
        if fields[i].name != ADDITIONAL && fields[i].key == key {
          assert fields[i] in fields && key in Reserved(fields) && key in extra.Keys;
          return None;
        }
      }
      rest := rest - {key};
      object_ := object_[key := Encoded(extra[key])];
    }
    assert extra.Keys - rest == extra.Keys;
    assert extra - rest == extra;
    res := Some(object_);
  }

  // ---------- round trips ----------

  /**
   Decoding what was encoded returns the typed part and the additional properties, with numbers as literals; and
   encoding succeeds exactly when no additional property has the key of a field.
   */
  lemma OpenRoundTrip(fields: seq<Field>, typed: map<string, Json>, extra: map<string, Value>)
    requires Generated(fields)
    requires forall k :: k in typed ==> exists f :: f in fields && f.key == k && k != "-"
    ensures CloseForm(fields, typed, extra).Some? <==> forall f :: f in fields && f.key != "-" ==> f.key !in extra
    ensures CloseForm(fields, typed, extra).Some? ==>
      OpenForm(fields, CloseForm(fields, typed, extra).value) == Opened(typed, map k | k in extra :: Exact(extra[k]))
  {
    hide Encoded, Decoded, Exact;
    assert Known(fields) == Reserved(fields) && typed.Keys <= Known(fields);
    assert extra.Keys !! Known(fields) <==> forall f :: f in fields && f.key != "-" ==> f.key !in extra by {
      if !(extra.Keys !! Known(fields)) {
        var k :| k in extra.Keys && k in Known(fields);
        assert exists f :: f in fields && f.key != "-" && f.key == k;
      }
    }
    hide Known, Reserved;
    if extra.Keys !! Known(fields) {
      var o := CloseForm(fields, typed, extra).value;
      forall k | k in extra ensures Decoded(o[k]) == Exact(extra[k]) { ValueRoundTrip(extra[k]); }
    }
  }

  /** Any object read and written again is the same object, whatever its keys: "-" and field names included. */
  lemma ReencodeRoundTrip(fields: seq<Field>, raw: map<string, Json>)
    requires Generated(fields)
    ensures var o := OpenForm(fields, raw); CloseForm(fields, o.known, o.extra) == Some(raw)
  {
    assert Known(fields) == Reserved(fields);
    var o := OpenForm(fields, raw);
    forall k | k in o.extra ensures Encoded(o.extra[k]) == raw[k] { JsonRoundTrip(raw[k]); }
    assert o.known + EncodedAll(o.extra) == raw;
  }
}
