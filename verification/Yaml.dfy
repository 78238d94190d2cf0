/** YAML trees as pkg/spec/topology.go reads and edits them. */
module Yaml {
  import opened Records

  /** A mapping keeps its entries in order and may repeat a key; an alias is named, not followed. */
  datatype Tree =
    | Scalar(tag: string, value: string)
    | Alias(name: string)
    | Sequence(items: seq<Tree>)
    | Mapping(entries: seq<Entry>)

  datatype Entry = Entry(key: string, value: Tree)

  function Str(s: string): Tree { Scalar("!!str", s) }

  predicate IsNull(t: Tree) { t.Scalar? && t.tag == "!!null" }

  /** The text that a node carries itself. */
  function Text(t: Tree): string {
    match t
    case Scalar(_, value) => value
    case Alias(name) => name
    case _ => ""
  }

  function WithText(t: Tree, s: string): Tree {
    match t
    case Scalar(tag, _) => Scalar(tag, s)
    case Alias(_) => Alias(s)
    case _ => t
  }

  /** The value of the first entry with that key. */
  function Lookup(es: seq<Entry>, key: string): Option<Tree> {
    if es == [] then None
    else if es[0].key == key then Some(es[0].value)
    else Lookup(es[1..], key)
  }

  /** Replaces the value of the first entry with that key, or adds an entry at the end. */
  function Put(es: seq<Entry>, key: string, v: Tree): (r: seq<Entry>)
    ensures forall k :: Lookup(r, k) == if k == key then Some(v) else Lookup(es, k)
    ensures Lookup(es, key) == Some(v) ==> r == es
  {
    if es == [] then [Entry(key, v)]
    else if es[0].key == key then [Entry(key, v)] + es[1..]
    else
      var rest := Put(es[1..], key, v);
      assert ([es[0]] + rest)[1..] == rest;
      [es[0]] + rest
  }

  /** What is left without the entries of some keys. */
  function Without(es: seq<Entry>, keys: set<string>): (r: seq<Entry>)
    ensures forall k :: Lookup(r, k) == if k in keys then None else Lookup(es, k)
  {
    if es == [] then []
    else
      var rest := Without(es[1..], keys);
      assert ([es[0]] + rest)[1..] == rest;
      if es[0].key in keys then rest else [es[0]] + rest
  }

  /** Setting a key leaves every entry of the other keys as it was, in its order. */
  lemma {:induction false} PutKeepsOthers(es: seq<Entry>, key: string, v: Tree, keys: set<string>)
    requires key in keys
    ensures Without(Put(es, key, v), keys) == Without(es, keys)
  {
    if es == [] {
    } else if es[0].key == key {
      assert ([Entry(key, v)] + es[1..])[1..] == es[1..];
    } else {
      var rest := Put(es[1..], key, v);
      assert ([es[0]] + rest)[1..] == rest;
      PutKeepsOthers(es[1..], key, v, keys);
    }
  }

  lemma {:induction false} PutAt(es: seq<Entry>, i: nat, key: string, v: Tree)
    requires i <= |es| && (i < |es| ==> es[i].key == key)
    requires forall j :: 0 <= j < i ==> es[j].key != key
    ensures Put(es, key, v) == if i < |es| then es[i := Entry(key, v)] else es + [Entry(key, v)]
    ensures Lookup(es, key) == if i < |es| then Some(es[i].value) else None
  {
    if 0 < i {
      var rest := es[1..];
      assert es[0].key != key;
      assert i < |es| ==> rest[i - 1] == es[i];
      forall j | 0 <= j < i - 1 ensures rest[j].key != key { assert rest[j] == es[j + 1]; }
      PutAt(rest, i - 1, key, v);
      assert Put(es, key, v) == [es[0]] + Put(rest, key, v);
      if i < |es| {
        assert [es[0]] + rest[i - 1 := Entry(key, v)] == es[i := Entry(key, v)];
      } else {
        assert [es[0]] + (rest + [Entry(key, v)]) == es + [Entry(key, v)];
      }
    }
  }

  /** Rewriting a list in place: the item after the finished part is replaced. */
  lemma ReplaceNext<T>(done: seq<T>, rest: seq<T>, v: T, tail: seq<T>)
    requires rest != []
    ensures (done + rest)[|done|] == rest[0]
    ensures (done + rest)[|done| := v] == (done + [v]) + rest[1..]
    ensures done + ([v] + tail) == (done + [v]) + tail
  {
  }

  // ---------- reading and setting, as loops ----------

  method MappingValue(t: Tree, key: string) returns (r: Option<Tree>)
    ensures r == if t.Mapping? then Lookup(t.entries, key) else None
  {
    if !t.Mapping? { return None; }
    for i := 0 to |t.entries|
      invariant forall j :: 0 <= j < i ==> t.entries[j].key != key
    {
      if t.entries[i].key == key {
        PutAt(t.entries, i, key, t.entries[i].value);
        return Some(t.entries[i].value);
      }
    }
    PutAt(t.entries, |t.entries|, key, t);
    r := None;
  }

  method SetValue(es: seq<Entry>, key: string, v: Tree) returns (r: seq<Entry>)
    ensures r == Put(es, key, v)
  {
    for i := 0 to |es|
      invariant forall j :: 0 <= j < i ==> es[j].key != key
    {
      if es[i].key == key {
        PutAt(es, i, key, v);
        return es[i := Entry(key, v)];
      }
    }
    PutAt(es, |es|, key, v);
    r := es + [Entry(key, v)];
  }

  method SetScalar(es: seq<Entry>, key: string, value: string) returns (r: seq<Entry>)
    ensures r == Put(es, key, Str(value))
  {
    r := SetValue(es, key, Str(value));
  }

  function Retagged(e: Entry, key: string): Entry {
    if e.key == key && e.value.Scalar? then Entry(key, Scalar("!!bool", e.value.value)) else e
  }

  /** Every scalar under that key as a boolean. */
  function RetagAll(es: seq<Entry>, key: string): (r: seq<Entry>) {
    if es == [] then [] else [Retagged(es[0], key)] + RetagAll(es[1..], key)
  }

  lemma {:induction false} RetagLooks(es: seq<Entry>, key: string, k: string)
    ensures Lookup(RetagAll(es, key), k) ==
      match Lookup(es, k)
      case None => None
      case Some(v) => Some(Retagged(Entry(k, v), key).value)
  {
    if es != [] {
      var rest := RetagAll(es[1..], key);
      assert ([Retagged(es[0], key)] + rest)[1..] == rest;
      RetagLooks(es[1..], key, k);
    }
  }

  function SetTrueForm(es: seq<Entry>, key: string): (r: seq<Entry>)
    ensures Lookup(r, key) == Some(Scalar("!!bool", "true"))
    ensures forall k :: k != key ==> Lookup(r, k) == Lookup(es, k)
  {
    var put := Put(es, key, Str("true"));
    assert forall k :: k != key ==> Lookup(RetagAll(put, key), k) == Lookup(put, k) by {
      forall k | k != key ensures Lookup(RetagAll(put, key), k) == Lookup(put, k) { RetagLooks(put, key, k); }
    }
    RetagLooks(put, key, key);
    RetagAll(put, key)
  }

  method SetTrue(es: seq<Entry>, key: string) returns (r: seq<Entry>)
    ensures r == SetTrueForm(es, key)
  {
    r := SetScalar(es, key, "true");
    r := RetagEach(r, key);
  }

  method RetagEach(es: seq<Entry>, key: string) returns (r: seq<Entry>)
    ensures r == RetagAll(es, key)
  {
    r := es;
    ghost var done: seq<Entry>, rest := [], es;
    for i := 0 to |es|
      invariant |done| == i && |rest| == |es| - i && r == done + rest
      invariant RetagAll(es, key) == done + RetagAll(rest, key)
    {
      ReplaceNext(done, rest, Retagged(rest[0], key), RetagAll(rest[1..], key));
      r := r[i := Retagged(r[i], key)];
      done, rest := done + [r[i]], rest[1..];
    }
  }

  lemma {:induction false} SetTrueTwice(es: seq<Entry>, key: string)
    ensures SetTrueForm(SetTrueForm(es, key), key) == SetTrueForm(es, key)
  {
    var yes := Scalar("!!bool", "true");
    if es == [] {
      var e := [Entry(key, Str("true"))];
      assert Put(es, key, Str("true")) == e;
      assert RetagAll(e, key) == [Retagged(e[0], key)] + RetagAll(e[1..], key);
      assert SetTrueForm(es, key) == [Entry(key, yes)];
      assert SetTrueForm(es, key)[1..] == [];
    } else if es[0].key == key {
      var rest := es[1..];
      assert ([Entry(key, Str("true"))] + rest)[1..] == rest;
      var once := RetagAll(rest, key);
      assert SetTrueForm(es, key) == [Entry(key, yes)] + once;
      assert ([Entry(key, yes)] + once)[1..] == once;
      assert ([Entry(key, Str("true"))] + once)[1..] == once;
      RetagTwice(rest, key);
    } else {
      var rest := es[1..];
      var put := Put(rest, key, Str("true"));
      assert ([es[0]] + put)[1..] == put;
      var once := SetTrueForm(rest, key);
      assert SetTrueForm(es, key) == [es[0]] + once;
      assert ([es[0]] + once)[1..] == once;
      var again := Put(once, key, Str("true"));
      assert ([es[0]] + again)[1..] == again;
      SetTrueTwice(rest, key);
    }
  }

  lemma {:induction false} RetagTwice(es: seq<Entry>, key: string)
    ensures RetagAll(RetagAll(es, key), key) == RetagAll(es, key)
  {
    if es != [] {
      var rest := RetagAll(es[1..], key);
      assert ([Retagged(es[0], key)] + rest)[1..] == rest;
      RetagTwice(es[1..], key);
    }
  }

  lemma {:induction false} RetagKeepsOthers(es: seq<Entry>, key: string)
    ensures Without(RetagAll(es, key), {key}) == Without(es, {key})
  {
    if es != [] {
      var rest := RetagAll(es[1..], key);
      assert ([Retagged(es[0], key)] + rest)[1..] == rest;
      RetagKeepsOthers(es[1..], key);
    }
  }
}
