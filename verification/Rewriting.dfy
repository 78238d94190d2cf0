/** The rewriting of a parsed topology document in place (pkg/spec/topology.go). */
module Rewriting {
  import opened Records
  import opened Yaml
  import opened Preparation
  import Naming

  /** A node's binds after one more was asked for: an equal one is not repeated. */
  predicate HasBind(items: seq<Tree>, bind: string) {
    exists i :: 0 <= i < |items| && Text(items[i]) == bind
  }

  function Bound(es: seq<Entry>, bind: string): seq<Entry> {
    if HasBind(BindItems(es), bind) then Put(es, "binds", Sequence(BindItems(es))) else AppendBinds(es, [bind])
  }

  /** Only a mapping takes the bind; what is appended to a scalar or an alias is not written out. */
  function BoundNode(t: Tree, bind: string): Tree {
    match t
    case Mapping(es) => Mapping(Bound(es, bind))
    case Sequence(items) => Sequence(items + [Str("binds"), Sequence([Str(bind)])])
    case _ => t
  }

  /** AddNodeBind on a whole document. */
  function BoundForm(root: seq<Entry>, name: string, bind: string): Result<seq<Entry>> {
    var topo := Ensured(Lookup(root, "topology"));
    match Lookup(NodesOf(topo), name)
    case None => Refused(UnknownNode)
    case Some(t) =>
      Ok(Put(root, "topology", Mapping(Put(topo, "nodes", Mapping(Put(NodesOf(topo), name, BoundNode(t, bind)))))))
  }

  // ---------- one more injected node ----------

  lemma {:induction false} InjectOne(es: seq<Entry>, done: map<string, seq<string>>, name: string, binds: seq<string>)
    requires name !in done && Lookup(es, name).Some?
    ensures Lookup(Inject(es, done), name) == Lookup(es, name)
    ensures Put(Inject(es, done), name, AppendTo(Lookup(es, name).value, binds)) == Inject(es, done[name := binds])
  {
    hide AppendTo;
    var e, rest := es[0], Inject(es[1..], done - {es[0].key});
    assert Inject(es, done)[1..] == rest;
    if e.key == name {
      assert done[name := binds] - {name} == done - {name};
    } else {
      InjectOne(es[1..], done - {e.key}, name, binds);
      assert done[name := binds] - {e.key} == (done - {e.key})[name := binds];
    }
  }

  lemma {:induction false} InjectLooks(es: seq<Entry>, binds: map<string, seq<string>>, name: string)
    ensures Lookup(Inject(es, binds), name).Some? <==> Lookup(es, name).Some?
  {
    if es != [] {
      assert Inject(es, binds)[1..] == Inject(es[1..], binds - {es[0].key});
      InjectLooks(es[1..], binds - {es[0].key}, name);
    }
  }

  lemma ChildrenStillFit(es: seq<Entry>, items: seq<Tree>)
    requires BindsFit(es)
    ensures Lookup(es, "binds").Some? ==> ChildrenFit(Put(es, "binds", Sequence(items))) == ChildrenFit(es)
  {
    if es != [] && es[0].key != "binds" {
      assert Put(es, "binds", Sequence(items))[1..] == Put(es[1..], "binds", Sequence(items));
      ChildrenStillFit(es[1..], items);
    }
  }

  class Document {
    var root: Tree

    constructor (root: Tree)
      ensures this.root == root
    {
      this.root := root;
    }

    /** What the prepared document, its lab and its nodes are is said by `Form`; a refusal says why. */
    method PrepareWithOptions(name: string, id: string, allow: bool, native: Option<Native>, base: Base,
                              binds: map<string, seq<string>>) returns (res: Result<Prepared>)
      modifies this
      ensures res == Form(old(root), name, id, allow, native, base, binds)
      ensures res.Ok? ==> root == Mapping(res.value.root)
    {
      hide Lookup, Put, TopologyForm, Naming.Sanitize, SetTrueForm, Names, TestNames, IsolatedNames;
      if !root.Mapping? { return Refused(NoMappingRoot); }
      var lab := Naming.Sanitize(name);
      if lab == "" { return Refused(NoName); }
      var es := SetScalar(root.entries, "name", lab);
      var topology := MappingValue(Mapping(es), "topology");
      if topology.None? || !topology.value.Mapping? { return Refused(NoTopology); }
      var nodes := MappingValue(topology.value, "nodes");
      if nodes.None? || !nodes.value.Mapping? || nodes.value.entries == [] { return Refused(NoNodes); }
      var mgmt := MappingValue(Mapping(es), "mgmt");
      if mgmt.Some? && !mgmt.value.Mapping? && !IsNull(mgmt.value) { return Refused(BadMgmt); }
      var skipping := SetTrue(if mgmt.Some? && mgmt.value.Mapping? then mgmt.value.entries else [], SKIP);
      es := SetValue(es, "mgmt", Mapping(skipping));
      root := Mapping(es);
      assert Lookup(es, "topology") == topology by { assert |"mgmt"| != |"topology"|; }
      if native.None? { return Refused(NotNative); }
      var rewritten := RewriteTopology(topology.value.entries, id, allow, native.value, base, binds);
      if rewritten.Refused? { return Refused(rewritten.why); }
      es := SetValue(es, "topology", Mapping(rewritten.value));
      root := Mapping(es);
      var final := NodesOf(rewritten.value);
      res := Ok(Prepared(lab, es, Names(final), TestNames(native.value, final), IsolatedNames(native.value, final)));
    }
  }

  /** Labels the nodes, makes host paths absolute and adds the session's binds. */
  method RewriteTopology(topo: seq<Entry>, id: string, allow: bool, native: Native, base: Base,
                         binds: map<string, seq<string>>) returns (res: Result<seq<Entry>>)
    ensures res == TopologyForm(topo, id, allow, native, base, binds)
  {
    hide Lookup, Put, LabelForm, Inject, SectionFits, AbsoluteSection;
    var labelled := ValidateAndLabel(native, id, allow, NodesOf(topo));
    if labelled.Refused? { return Refused(labelled.why); }
    var es := SetValue(topo, "nodes", Mapping(labelled.value));
    match base {
      case NoBase =>
      case Directory(join) =>
        var based := AbsolutizeSections(join, es);
        if based.Refused? { return based; }
        es := based.value;
    }
    var bound := AddBinds(NodesOf(es), binds);
    if bound.Refused? { return bound; }
    es := SetValue(es, "nodes", Mapping(bound.value));
    res := Ok(es);
  }

  /** Checks every node against the isolation policy, in order, and labels it with its owner. */
  method ValidateAndLabel(native: Native, id: string, allow: bool, nodes: seq<Entry>) returns (res: Result<seq<Entry>>)
    ensures res == LabelForm(native, id, allow, nodes)
  {
    hide Objection, Labelled;
    var es := nodes;
    ghost var done: seq<Entry>, rest := [], nodes;
    for i := 0 to |nodes|
      invariant |done| == i && |rest| == |nodes| - i && es == done + rest
      invariant LabelAll(native, id, nodes) == done + LabelAll(native, id, rest)
      invariant FirstObjection(native, allow, nodes) == FirstObjection(native, allow, rest)
    {
      var name := es[i].key;
      var node := ValidateNode(native, id, allow, name, es[i].value);
      if node.Refused? { return Refused(node.why); }
      ReplaceNext(done, rest, Entry(name, node.value), LabelAll(native, id, rest[1..]));
      es := es[i := Entry(name, node.value)];
      done, rest := done + [es[i]], rest[1..];
    }
    if !allow {
      var leaving := CheckLinks(native.links);
      if leaving.Some? { return Refused(leaving.value); }
    }
    res := Ok(es);
  }

  method ValidateNode(native: Native, id: string, allow: bool, name: string, value: Tree) returns (res: Result<Tree>)
    ensures res == match Objection(native, allow, name, value)
      case Some(why) => Refused(why)
      case None => Ok(Labelled(native, id, name, value))
  {
    hide Lookup, Put;
    var node := if IsNull(value) then Mapping([]) else value;
    if !node.Mapping? { return Refused(NodeNotMapping); }
    var es := node.entries;
    if !allow && Borrowed(native, name) { return Refused(BorrowsBridge); }
    var mode := Mode(native, name, es);
    if !Borrowed(native, name) && mode == "" {
      es := SetScalar(es, "network-mode", "none");
      mode := "none";
    }
    if !allow && !Borrowed(native, name) && mode != "none" { return Refused(NotIsolated); }
    if !allow {
      var ports := native.ports(name);
      if ports.None? { return Refused(BadPorts); }
      if ports.value != 0 { return Refused(PublishesPorts); }
    }
    var labels := MappingValue(Mapping(es), "labels");
    var owned := SetScalar(if labels.Some? && labels.value.Mapping? then labels.value.entries else [], SESSION, id);
    owned := SetScalar(owned, MANAGED, "true");
    es := SetValue(es, "labels", Mapping(owned));
    res := Ok(Mapping(es));
  }

  method CheckLinks(links: seq<Link>) returns (o: Option<Refusal>)
    ensures o == LinkObjection(links)
  {
    for i := 0 to |links|
      invariant LinkObjection(links) == LinkObjection(links[i..])
    {
      assert links[i..][1..] == links[i + 1..];
      match links[i] {
        case NullLink => return Some(LinkIsNull);
        case Link(leaves, endpoints) => if leaves || "host" in endpoints || "mgmt-net" in endpoints { return Some(LeavesLab); }
      }
    }
    o := None;
  }

  /** Each section in turn: the defaults, the groups, the kinds and the nodes. */
  method AbsolutizeSections(join: string -> string, topo: seq<Entry>) returns (res: Result<seq<Entry>>)
    ensures res == if SectionsFit(topo) then Ok(AbsoluteTopology(join, topo)) else Refused(BindsNotSequence)
  {
    hide Lookup, Put, SectionFits, AbsoluteSection;
    assert |"defaults"| == 8 && |"groups"| == 6 && |"kinds"| == 5 && |"nodes"| == 5 && "kinds"[0] != "nodes"[0];
    res := AbsolutizeSection(join, topo, "defaults");
    if res.Refused? { return; }
    res := AbsolutizeSection(join, res.value, "groups");
    if res.Refused? { return; }
    res := AbsolutizeSection(join, res.value, "kinds");
    if res.Refused? { return; }
    res := AbsolutizeSection(join, res.value, "nodes");
  }

  method AbsolutizeSection(join: string -> string, topo: seq<Entry>, key: string) returns (res: Result<seq<Entry>>)
    ensures res == if SectionFits(Lookup(topo, key)) then Ok(WithSection(join, topo, key)) else Refused(BindsNotSequence)
  {
    hide Lookup, Put, ChildrenFit, AbsoluteChildren;
    var section := MappingValue(Mapping(topo), key);
    if section.None? || !section.value.Mapping? { return Ok(topo); }
    var es := section.value.entries;
    var own := AbsolutizeDefinition(join, es);
    if own.Refused? { return Refused(BindsNotSequence); }
    ChildrenStillFit(es, BindItems(own.value));
    var all := AbsolutizeChildren(join, own.value);
    if all.Refused? { return Refused(BindsNotSequence); }
    var out := SetValue(topo, key, Mapping(all.value));
    res := Ok(out);
  }

  method AbsolutizeDefinition(join: string -> string, es: seq<Entry>) returns (res: Result<seq<Entry>>)
    ensures res == if BindsFit(es) then Ok(AbsoluteDefinition(join, es)) else Refused(BindsNotSequence)
  {
    hide Lookup, Put;
    var binds := MappingValue(Mapping(es), "binds");
    if binds.None? { return Ok(es); }
    if !binds.value.Sequence? { return Refused(BindsNotSequence); }
    var items := AbsolutizeItems(join, binds.value.items);
    var out := SetValue(es, "binds", Sequence(items));
    res := Ok(out);
  }

  method AbsolutizeItems(join: string -> string, was: seq<Tree>) returns (items: seq<Tree>)
    ensures items == AbsoluteItems(join, was)
  {
    items := was;
    ghost var done: seq<Tree>, rest := [], was;
    for i := 0 to |was|
      invariant |done| == i && |rest| == |was| - i && items == done + rest
      invariant AbsoluteItems(join, was) == done + AbsoluteItems(join, rest)
    {
      var item := AbsolutizeItem(join, items[i]);
      ReplaceNext(done, rest, item, AbsoluteItems(join, rest[1..]));
      items := items[i := item];
      done, rest := done + [item], rest[1..];
    }
  }

  method AbsolutizeItem(join: string -> string, item: Tree) returns (r: Tree)
    ensures r == WithText(item, Absolute(join, Text(item)))
  {
    r := item;
    var s := Text(item);
    var c := Colon(s);
    if c < |s| && c != 0 && s[0] != '/' && s[0] != '$' { r := WithText(item, join(s[..c]) + s[c..]); }
  }

  method AbsolutizeChildren(join: string -> string, was: seq<Entry>) returns (res: Result<seq<Entry>>)
    ensures res == if ChildrenFit(was) then Ok(AbsoluteChildren(join, was)) else Refused(BindsNotSequence)
  {
    hide BindsFit, AbsoluteDefinition;
    var es := was;
    ghost var done: seq<Entry>, rest := [], was;
    for i := 0 to |was|
      invariant |done| == i && |rest| == |was| - i && es == done + rest
      invariant AbsoluteChildren(join, was) == done + AbsoluteChildren(join, rest)
      invariant ChildrenFit(was) == ChildrenFit(rest)
    {
      var e := es[i];
      if e.value.Mapping? {
        var definition := AbsolutizeDefinition(join, e.value.entries);
        if definition.Refused? { return Refused(BindsNotSequence); }
        e := Entry(e.key, Mapping(definition.value));
      }
      ReplaceNext(done, rest, e, AbsoluteChildren(join, rest[1..]));
      es := es[i := e];
      done, rest := done + [e], rest[1..];
    }
    res := Ok(es);
  }

  /** Adds the binds node by node; the order in which the nodes come does not matter. */
  method AddBinds(nodes: seq<Entry>, binds: map<string, seq<string>>) returns (res: Result<seq<Entry>>)
    ensures res == if AllNamed(nodes, binds) then Ok(Inject(nodes, binds)) else Refused(UnknownNode)
  {
    hide Lookup, Put, Inject, AppendTo;
    var es := nodes;
    var rest := binds.Keys;
    ghost var done: map<string, seq<string>> := map[];
    InjectNothing(nodes);
    while rest != {}
      invariant rest <= binds.Keys && done == binds - rest
      invariant es == Inject(nodes, done)
      invariant forall n :: n in done ==> Lookup(nodes, n).Some?
      decreases rest
    {
      var name :| name in rest;
      rest := rest - {name};
      var node := MappingValue(Mapping(es), name);
      InjectLooks(nodes, done, name);
      if node.None? { return Refused(UnknownNode); }
      InjectOne(nodes, done, name, binds[name]);
      es := SetValue(es, name, AppendTo(node.value, binds[name]));
      done := done[name := binds[name]];
      assert done == binds - rest;
    }
    assert binds - {} == binds;
    res := Ok(es);
  }

  /** Adds one bind to one node of a stored document, unless the node has it. */
  method AddNodeBind(doc: Document, name: string, bind: string) returns (res: Result<seq<Entry>>)
    modifies doc
    ensures !old(doc.root).Mapping? ==> res == Refused(NoMappingRoot)
    ensures old(doc.root).Mapping? ==> res == BoundForm(old(doc.root).entries, name, bind)
    ensures doc.root == if res.Ok? then Mapping(res.value) else old(doc.root)
  {
    hide Lookup, Put;
    if !doc.root.Mapping? { return Refused(NoMappingRoot); }
    var root := doc.root.entries;
    var topo := Ensured(Lookup(root, "topology"));
    var node := MappingValue(Mapping(NodesOf(topo)), name);
    if node.None? { return Refused(UnknownNode); }
    var bound := BindNode(node.value, bind);
    var nodes := SetValue(NodesOf(topo), name, bound);
    topo := SetValue(topo, "nodes", Mapping(nodes));
    root := SetValue(root, "topology", Mapping(topo));
    doc.root := Mapping(root);
    res := Ok(root);
  }

  method BindNode(t: Tree, bind: string) returns (r: Tree)
    ensures r == BoundNode(t, bind)
  {
    hide Lookup, Put;
    match t {
      case Mapping(es) =>
        var items := BindItems(es);
        var found := false;
        for i := 0 to |items|
          invariant found <==> exists j :: 0 <= j < i && Text(items[j]) == bind
        {
          if Text(items[i]) == bind { found := true; }
        }
        assert Strs([bind]) == [Str(bind)];
        var out := SetValue(es, "binds", Sequence(if found then items else items + [Str(bind)]));
        r := Mapping(out);
      case Sequence(items) => r := Sequence(items + [Str("binds"), Sequence([Str(bind)])]);
      case _ => r := t;
    }
  }
}
