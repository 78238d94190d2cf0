/** What the preparation of a topology promises (pkg/spec/topology.go). */
module PreparationLaws {
  import opened Records
  import opened Yaml
  import opened Preparation
  import Naming

  // ---------- preparing again changes nothing ----------

  lemma BasedSettles(topo: seq<Entry>, id: string, allow: bool, native: Native, base: Base, based: seq<Entry>)
    requires BasedForm(topo, id, allow, native, base) == Ok(based)
    ensures Lookup(based, "nodes") == Some(Mapping(NodesOf(based)))
    ensures Settled(native, id, allow, NodesOf(based)) && |NodesOf(based)| == |NodesOf(topo)|
    ensures forall i :: 0 <= i < |NodesOf(based)| ==> NodesOf(based)[i].value.Mapping?
  {
    hide Lookup, Put, LabelAll, FirstObjection, LinkObjection, AbsoluteTopology;
    var labelled := LabelAll(native, id, NodesOf(topo));
    LabelAllSettles(native, id, allow, NodesOf(topo));
    var t := Put(topo, "nodes", Mapping(labelled));
    match base {
      case NoBase =>
      case Directory(join) => BasedNodesSettle(t, id, allow, native, join, labelled);
    }
    forall i | 0 <= i < |NodesOf(based)| ensures NodesOf(based)[i].value.Mapping? {
      assert SettledNode(native, id, allow, NodesOf(based)[i].key, NodesOf(based)[i].value);
    }
  }

  /** The nodes of a prepared topology are settled. */
  lemma NodesSettle(topo: seq<Entry>, id: string, allow: bool, native: Native, base: Base,
                    binds: map<string, seq<string>>, out: seq<Entry>)
    requires TopologyForm(topo, id, allow, native, base, binds) == Ok(out)
    ensures Lookup(out, "nodes") == Some(Mapping(NodesOf(out)))
    ensures Settled(native, id, allow, NodesOf(out)) && |NodesOf(out)| == |NodesOf(topo)|
    ensures !allow ==> LinkObjection(native.links) == None
  {
    hide Lookup, Put, Inject, LabelAll, FirstObjection, LinkObjection, AbsoluteTopology, SettledNode, ReboundNode;
    var based := BasedForm(topo, id, allow, native, base).value;
    BasedSettles(topo, id, allow, native, base, based);
    InjectRebinds(NodesOf(based), binds);
    ReboundStaysSettled(native, id, allow, NodesOf(based), Inject(NodesOf(based), binds));
  }

  lemma BasedNodesSettle(t: seq<Entry>, id: string, allow: bool, native: Native, join: string -> string,
                         nodes: seq<Entry>)
    requires Lookup(t, "nodes") == Some(Mapping(nodes)) && Settled(native, id, allow, nodes) && SectionsFit(t)
    ensures Lookup(AbsoluteTopology(join, t), "nodes") == Some(Mapping(AbsoluteChildren(join, nodes)))
    ensures Settled(native, id, allow, AbsoluteChildren(join, nodes)) && |AbsoluteChildren(join, nodes)| == |nodes|
  {
    SectionLook(join, t, "nodes");
    SettledHasNoBinds(native, id, allow, nodes);
    AbsoluteRebinds(join, nodes);
    ReboundStaysSettled(native, id, allow, nodes, AbsoluteChildren(join, nodes));
  }

  lemma TopologyAgain(topo: seq<Entry>, id: string, allow: bool, native: Native)
    requires Lookup(topo, "nodes") == Some(Mapping(NodesOf(topo))) && Settled(native, id, allow, NodesOf(topo))
    requires !allow ==> LinkObjection(native.links) == None
    ensures TopologyForm(topo, id, allow, native, NoBase, map[]) == Ok(topo)
  {
    SettledIsFixed(native, id, allow, NodesOf(topo));
    InjectNothing(NodesOf(topo));
  }

  lemma ShellAgain(doc: Tree, name: string, root: seq<Entry>, topo: seq<Entry>)
    requires Shell(doc, name) == Ok(root)
    requires Naming.Sanitize(Naming.Sanitize(name)) == Naming.Sanitize(name)
    requires Lookup(topo, "nodes").Some? && Lookup(topo, "nodes").value.Mapping? && NodesOf(topo) != []
    ensures Shell(Mapping(Put(root, "topology", Mapping(topo))), Naming.Sanitize(name))
      == Ok(Put(root, "topology", Mapping(topo)))
  {
    hide Lookup, Put;
    var lab := Naming.Sanitize(name);
    var out := Put(root, "topology", Mapping(topo));
    var named := Put(doc.entries, "name", Str(lab));
    var mgmt := Ensured(Lookup(named, "mgmt"));
    ShellLooks(doc, name, root);
    assert Lookup(out, "name") == Some(Str(lab)) && Lookup(out, "mgmt") == Some(Mapping(SetTrueForm(mgmt, SKIP))) by {
      assert |"name"| != |"topology"| && |"mgmt"| != |"topology"|;
    }
    assert Put(out, "name", Str(lab)) == out;
    SetTrueTwice(mgmt, SKIP);
  }

  lemma ShellLooks(doc: Tree, name: string, root: seq<Entry>)
    requires Shell(doc, name) == Ok(root)
    ensures Lookup(root, "name") == Some(Str(Naming.Sanitize(name))) && Naming.Sanitize(name) != ""
    ensures Lookup(root, "mgmt") == Some(Mapping(SetTrueForm(
      Ensured(Lookup(Put(doc.entries, "name", Str(Naming.Sanitize(name))), "mgmt")), SKIP)))
  {
    hide Lookup, Put;
    assert "name"[0] != "mgmt"[0];
  }

  /**
   Preparing a prepared topology again, under its own lab name, yields it unchanged, exactly when cutting the
   session name to length left no separator at its end.
   */
  lemma PreparingAgainIff(doc: Tree, name: string, id: string, allow: bool, native: Option<Native>, base: Base,
                          binds: map<string, seq<string>>, p: Prepared)
    requires Form(doc, name, id, allow, native, base, binds) == Ok(p)
    ensures Form(Mapping(p.root), p.name, id, allow, native, NoBase, map[]) == Ok(p) <==> Naming.CutIsClean(name)
  {
    hide Lookup, Put, Shell, TopologyForm, Names, TestNames, IsolatedNames, Naming.Sanitize, Naming.CutIsClean;
    Naming.SanitizeTwiceIff(name);
    var root := Shell(doc, name).value;
    var topo := Ensured(Lookup(root, "topology"));
    var out := TopologyForm(topo, id, allow, native.value, base, binds).value;
    NodesSettle(topo, id, allow, native.value, base, binds, out);
    ShellTopology(doc, name, root);
    if Naming.CutIsClean(name) {
      ShellAgain(doc, name, root, out);
      TopologyAgain(out, id, allow, native.value);
      assert Lookup(p.root, "topology") == Some(Mapping(out));
    }
  }

  lemma ShellTopology(doc: Tree, name: string, root: seq<Entry>)
    requires Shell(doc, name) == Ok(root)
    ensures doc.Mapping? && Lookup(root, "topology") == Lookup(doc.entries, "topology")
    ensures Lookup(root, "topology").Some? && Lookup(root, "topology").value.Mapping?
    ensures NodesOf(Ensured(Lookup(root, "topology"))) != []
  {
    hide Lookup, Put;
    assert |"name"| != |"topology"| && |"mgmt"| != |"topology"|;
  }

  // ---------- host paths made absolute twice are made absolute once ----------

  ghost predicate JoinsAbsolute(join: string -> string) {
    forall h :: join(h) != "" && join(h)[0] == '/'
  }

  lemma AbsoluteOnce(join: string -> string, s: string)
    requires JoinsAbsolute(join)
    ensures Absolute(join, Absolute(join, s)) == Absolute(join, s)
    ensures var r := Absolute(join, s); Colon(r) == 0 || Colon(r) == |r| || r[0] == '/' || r[0] == '$'
    ensures Absolute(join, s)[|Absolute(join, s)| - |s[Colon(s)..]|..] == s[Colon(s)..]
  {
  }

  lemma {:induction false} ItemsOnce(join: string -> string, items: seq<Tree>)
    requires JoinsAbsolute(join)
    ensures AbsoluteItems(join, AbsoluteItems(join, items)) == AbsoluteItems(join, items)
  {
    if items != [] {
      AbsoluteOnce(join, Text(items[0]));
      ItemsOnce(join, items[1..]);
    }
  }

  lemma DefinitionOnce(join: string -> string, es: seq<Entry>)
    requires JoinsAbsolute(join)
    ensures var once := AbsoluteDefinition(join, es); AbsoluteDefinition(join, once) == once
    ensures Without(AbsoluteDefinition(join, es), {"binds"}) == Without(es, {"binds"})
  {
    hide Lookup, Put;
    match Lookup(es, "binds") {
      case Some(Sequence(items)) =>
        ItemsOnce(join, items);
        PutKeepsOthers(es, "binds", Sequence(AbsoluteItems(join, items)), {"binds"});
      case _ =>
    }
  }

  lemma {:induction false} ChildrenOnce(join: string -> string, es: seq<Entry>)
    requires JoinsAbsolute(join)
    ensures AbsoluteChildren(join, AbsoluteChildren(join, es)) == AbsoluteChildren(join, es)
  {
    hide AbsoluteDefinition;
    if es != [] {
      if es[0].value.Mapping? { DefinitionOnce(join, es[0].value.entries); }
      ChildrenOnce(join, es[1..]);
    }
  }

  lemma {:induction false} ChildrenLook(join: string -> string, es: seq<Entry>, key: string)
    ensures Lookup(AbsoluteChildren(join, es), key) ==
      match Lookup(es, key)
      case Some(Mapping(d)) => Some(Mapping(AbsoluteDefinition(join, d)))
      case o => o
  {
    hide AbsoluteDefinition;
    if es != [] { ChildrenLook(join, es[1..], key); }
  }

  lemma SectionOnce(join: string -> string, t: Tree)
    requires JoinsAbsolute(join)
    ensures AbsoluteSection(join, AbsoluteSection(join, t)) == AbsoluteSection(join, t)
  {
    hide Lookup, Put, AbsoluteChildren;
    if t.Mapping? {
      var own := AbsoluteDefinition(join, t.entries);
      DefinitionOnce(join, t.entries);
      ChildrenLook(join, own, "binds");
      ChildrenOnce(join, own);
      assert AbsoluteDefinition(join, own) == own;
      assert AbsoluteDefinition(join, AbsoluteChildren(join, own)) == AbsoluteChildren(join, own);
    }
  }

  /** Making host paths absolute a second time changes nothing, wherever a section's value came from. */
  lemma TopologyOnce(join: string -> string, topo: seq<Entry>)
    requires JoinsAbsolute(join)
    ensures AbsoluteTopology(join, AbsoluteTopology(join, topo)) == AbsoluteTopology(join, topo)
  {
    hide Lookup, Put, AbsoluteSection;
    var t := AbsoluteTopology(join, topo);
    forall k | k in {"defaults", "groups", "kinds", "nodes"} ensures WithSection(join, t, k) == t {
      SectionLook(join, topo, k);
      if Lookup(topo, k).Some? { SectionOnce(join, Lookup(topo, k).value); }
    }
  }

  lemma SectionLook(join: string -> string, topo: seq<Entry>, key: string)
    ensures Lookup(AbsoluteTopology(join, topo), key) ==
      if key in {"defaults", "groups", "kinds", "nodes"} && Lookup(topo, key).Some?
      then Some(AbsoluteSection(join, Lookup(topo, key).value))
      else Lookup(topo, key)
  {
    hide Lookup, Put, AbsoluteSection;
    assert |"defaults"| == 8 && |"groups"| == 6 && |"kinds"| == 5 && |"nodes"| == 5 && "kinds"[0] != "nodes"[0];
  }

  // ---------- nothing else is lost ----------

  lemma {:induction false} WithoutTwice(es: seq<Entry>, a: set<string>, b: set<string>)
    ensures Without(Without(es, a), b) == Without(es, a + b)
  {
    if es != [] {
      var rest := Without(es[1..], a);
      assert ([es[0]] + rest)[1..] == rest;
      WithoutTwice(es[1..], a, b);
    }
  }

  const SET_ON_NODES: set<string> := {"network-mode", "labels", "binds"}

  /** A node keeps its place, its own settings, its labels and a network mode it resolves; its binds only grow. */
  predicate NodeKept(native: Native, id: string, base: Base, extra: seq<string>, e: Entry, f: Entry) {
    && f.key == e.key && f.value.Mapping? && AsMapping(e.value).Mapping?
    && var es := AsMapping(e.value).entries;
       var fs := f.value.entries;
    && Without(fs, SET_ON_NODES) == Without(es, SET_ON_NODES)
    && (Borrowed(native, e.key) || Mode(native, e.key, es) != "" ==>
          Lookup(fs, "network-mode") == Lookup(es, "network-mode"))
    && (!Borrowed(native, e.key) && Mode(native, e.key, es) == "" ==> Lookup(fs, "network-mode") == Some(Str("none")))
    && Lookup(fs, "labels").Some? && Lookup(fs, "labels").value.Mapping?
    && Without(Ensured(Lookup(fs, "labels")), {SESSION, MANAGED}) == Without(Ensured(Lookup(es, "labels")), {SESSION, MANAGED})
    && BindItems(fs) == BasedItems(base, BindItems(es)) + Strs(extra)
  }

  function BasedItems(base: Base, items: seq<Tree>): seq<Tree> {
    match base
    case NoBase => items
    case Directory(join) => AbsoluteItems(join, items)
  }

  /** What `binds` adds to entry `i`: the list of its name, on the first entry of that name. */
  function Extra(es: seq<Entry>, binds: map<string, seq<string>>, i: nat): seq<string>
    requires i < |es|
  {
    if es[i].key in binds && (forall j :: 0 <= j < i ==> es[j].key != es[i].key) then binds[es[i].key] else []
  }

  lemma LabelledKeeps(native: Native, id: string, allow: bool, e: Entry)
    requires Objection(native, allow, e.key, e.value) == None
    ensures NodeKept(native, id, NoBase, [], e, Entry(e.key, Labelled(native, id, e.key, e.value)))
  {
    hide Lookup, Put, Without;
    var es := AsMapping(e.value).entries;
    var fs := WithMode(native, e.key, es);
    var labels := Mapping(OwnerLabels(id, Ensured(Lookup(fs, "labels"))));
    PutKeepsOthers(es, "network-mode", Str("none"), SET_ON_NODES);
    PutKeepsOthers(fs, "labels", labels, SET_ON_NODES);
    assert |"network-mode"| == 12 && |"labels"| == 6 && |"binds"| == 5;
    OwnerLabelsAreSet(id, Ensured(Lookup(fs, "labels")));
  }

  lemma {:induction false} LabelAllAt(native: Native, id: string, es: seq<Entry>, i: nat)
    requires i < |es|
    ensures |LabelAll(native, id, es)| == |es|
    ensures LabelAll(native, id, es)[i] == Entry(es[i].key, Labelled(native, id, es[i].key, es[i].value))
  {
    hide Labelled;
    if |es| == 1 {
      assert LabelAll(native, id, es[1..]) == [];
    } else {
      LabelAllAt(native, id, es[1..], if i > 0 then i - 1 else 0);
    }
  }

  lemma {:induction false} NoObjectionAt(native: Native, allow: bool, es: seq<Entry>, i: nat)
    requires FirstObjection(native, allow, es) == None && i < |es|
    ensures Objection(native, allow, es[i].key, es[i].value) == None
  {
    if i > 0 { NoObjectionAt(native, allow, es[1..], i - 1); }
  }

  lemma {:induction false} ChildrenAt(join: string -> string, es: seq<Entry>, i: nat)
    requires i < |es| && es[i].value.Mapping?
    ensures |AbsoluteChildren(join, es)| == |es|
    ensures AbsoluteChildren(join, es)[i] == Entry(es[i].key, Mapping(AbsoluteDefinition(join, es[i].value.entries)))
  {
    hide AbsoluteDefinition;
    ChildrenLength(join, es);
    if i > 0 { ChildrenAt(join, es[1..], i - 1); }
  }

  lemma {:induction false} ChildrenLength(join: string -> string, es: seq<Entry>)
    ensures |AbsoluteChildren(join, es)| == |es|
  {
    if es != [] { ChildrenLength(join, es[1..]); }
  }

  lemma {:induction false} InjectAt(es: seq<Entry>, binds: map<string, seq<string>>, i: nat)
    requires i < |es| && es[i].value.Mapping?
    ensures |Inject(es, binds)| == |es|
    ensures Inject(es, binds)[i].key == es[i].key && Inject(es, binds)[i].value.Mapping?
    ensures var fs := Inject(es, binds)[i].value.entries;
      && Without(fs, {"binds"}) == Without(es[i].value.entries, {"binds"})
      && BindItems(fs) == BindItems(es[i].value.entries) + Strs(Extra(es, binds, i))
  {
    hide Lookup, Put, Without;
    InjectLength(es, binds);
    if i == 0 {
      var d := es[0].value.entries;
      if es[0].key in binds {
        PutKeepsOthers(d, "binds", Sequence(BindItems(d) + Strs(binds[es[0].key])), {"binds"});
      }
    } else {
      InjectAt(es[1..], binds - {es[0].key}, i - 1);
      assert forall j :: 0 <= j < i - 1 ==> es[1..][j].key == es[j + 1].key;
      assert Extra(es, binds, i) == Extra(es[1..], binds - {es[0].key}, i - 1) by {
        if es[i].key == es[0].key {
        } else if forall j :: 0 <= j < i - 1 ==> es[1..][j].key != es[i].key {
          forall j | 0 <= j < i ensures es[j].key != es[i].key { if j > 0 { assert es[1..][j - 1] == es[j]; } }
        }
      }
    }
  }

  lemma {:induction false} InjectLength(es: seq<Entry>, binds: map<string, seq<string>>)
    ensures |Inject(es, binds)| == |es|
  {
    if es != [] { InjectLength(es[1..], binds - {es[0].key}); }
  }

  function BasedEntry(base: Base, e: Entry): Entry {
    match base
    case NoBase => e
    case Directory(join) =>
      Entry(e.key, if e.value.Mapping? then Mapping(AbsoluteDefinition(join, e.value.entries)) else e.value)
  }

  /** The node after labelling, after its host paths became absolute, and after the session's binds. */
  lemma NodeIsKept(native: Native, id: string, base: Base, extra: seq<string>, e: Entry, f: Entry, g: Entry, h: Entry)
    requires NodeKept(native, id, NoBase, [], e, f)
    requires g == BasedEntry(base, f)
    requires h.key == g.key && h.value.Mapping?
    requires Without(h.value.entries, {"binds"}) == Without(g.value.entries, {"binds"})
    requires BindItems(h.value.entries) == BindItems(g.value.entries) + Strs(extra)
    ensures NodeKept(native, id, base, extra, e, h)
  {
    hide Lookup, Put, Without, Explicit, Mode;
    var es, fs, gs, hs := AsMapping(e.value).entries, f.value.entries, g.value.entries, h.value.entries;
    match base {
      case NoBase =>
      case Directory(join) => DefinitionItems(join, fs);
    }
    assert Without(hs, {"binds"}) == Without(fs, {"binds"});
    WithoutTwice(hs, {"binds"}, SET_ON_NODES);
    WithoutTwice(fs, {"binds"}, SET_ON_NODES);
    assert {"binds"} + SET_ON_NODES == SET_ON_NODES;
    LooksKept(fs, hs, "network-mode");
    LooksKept(fs, hs, "labels");
    assert BindItems(fs) == BindItems(es) by { assert Strs([]) == []; }
    assert BindItems(gs) == BasedItems(base, BindItems(es));
  }

  lemma LooksKept(fs: seq<Entry>, hs: seq<Entry>, key: string)
    requires Without(hs, {"binds"}) == Without(fs, {"binds"}) && key != "binds"
    ensures Lookup(hs, key) == Lookup(fs, key)
  {
    hide Lookup, Without;
    assert Lookup(Without(hs, {"binds"}), key) == Lookup(hs, key);
    assert Lookup(Without(fs, {"binds"}), key) == Lookup(fs, key);
  }

  lemma DefinitionItems(join: string -> string, es: seq<Entry>)
    ensures BindItems(AbsoluteDefinition(join, es)) == AbsoluteItems(join, BindItems(es))
    ensures Without(AbsoluteDefinition(join, es), {"binds"}) == Without(es, {"binds"})
  {
    hide Lookup, Put, Without;
    match Lookup(es, "binds") {
      case Some(Sequence(items)) =>
        PutKeepsOthers(es, "binds", Sequence(AbsoluteItems(join, items)), {"binds"});
      case _ =>
    }
  }

  /** Every node of the topology survives in its place; each gets the binds that its name asks for. */
  lemma NodesAreKept(topo: seq<Entry>, id: string, allow: bool, native: Native, base: Base,
                     binds: map<string, seq<string>>, out: seq<Entry>, i: nat)
    requires TopologyForm(topo, id, allow, native, base, binds) == Ok(out) && i < |NodesOf(topo)|
    ensures |NodesOf(out)| == |NodesOf(topo)|
    ensures NodeKept(native, id, base, Extra(NodesOf(topo), binds, i), NodesOf(topo)[i], NodesOf(out)[i])
  {
    hide Lookup, Put, Without, NodeKept, BaseForm, FirstObjection, LinkObjection, SettledNode, BasedEntry, LabelAll, Inject, Labelled;
    var nodes := NodesOf(topo);
    NoObjectionAt(native, allow, nodes, i);
    LabelAllAt(native, id, nodes, i);
    LabelledKeeps(native, id, allow, nodes[i]);
    LabelAllSettles(native, id, allow, nodes);
    var labelled := LabelAll(native, id, nodes);
    var t := Put(topo, "nodes", Mapping(labelled));
    var based := NodesOf(BaseForm(base, t).value);
    BasedNodes(t, id, allow, native, base, labelled);
    InjectAt(based, binds, i);
    assert Extra(based, binds, i) == Extra(nodes, binds, i) by {
      forall j | 0 <= j < |nodes| ensures based[j].key == nodes[j].key { LabelAllAt(native, id, nodes, j); }
    }
    NodeIsKept(native, id, base, Extra(nodes, binds, i), nodes[i], labelled[i], based[i], Inject(based, binds)[i]);
  }

  lemma BasedNodes(t: seq<Entry>, id: string, allow: bool, native: Native, base: Base, nodes: seq<Entry>)
    requires Lookup(t, "nodes") == Some(Mapping(nodes)) && Settled(native, id, allow, nodes) && BaseForm(base, t).Ok?
    ensures var based := NodesOf(BaseForm(base, t).value);
      |based| == |nodes| && forall i :: 0 <= i < |nodes| ==>
        based[i] == BasedEntry(base, nodes[i]) && based[i].key == nodes[i].key && based[i].value.Mapping?
  {
    hide Lookup, Put, AbsoluteTopology, SectionsFit, AbsoluteDefinition;
    assert forall i :: 0 <= i < |nodes| ==> SettledNode(native, id, allow, nodes[i].key, nodes[i].value);
    match base {
      case NoBase =>
      case Directory(join) =>
        BasedNodesSettle(t, id, allow, native, join, nodes);
        forall i | 0 <= i < |nodes| ensures AbsoluteChildren(join, nodes)[i] == BasedEntry(base, nodes[i]) {
          ChildrenAt(join, nodes, i);
        }
    }
  }

  const SECTIONS: set<string> := {"defaults", "groups", "kinds", "nodes"}

  /** Outside the nodes only bind lists change: the topology's other keys, and each section but its binds. */
  predicate TopologyKept(base: Base, topo: seq<Entry>, out: seq<Entry>) {
    && Without(out, SECTIONS) == Without(topo, SECTIONS)
    && forall k :: k in SECTIONS - {"nodes"} ==>
         Lookup(out, k) == match base
           case NoBase => Lookup(topo, k)
           case Directory(join) =>
             match Lookup(topo, k)
             case Some(t) => Some(AbsoluteSection(join, t))
             case None => None
  }

  lemma SectionsAreKept(topo: seq<Entry>, id: string, allow: bool, native: Native, base: Base,
                        binds: map<string, seq<string>>, out: seq<Entry>)
    requires TopologyForm(topo, id, allow, native, base, binds) == Ok(out)
    ensures TopologyKept(base, topo, out)
  {
    hide Lookup, Put, Without, Inject, LabelAll, FirstObjection, LinkObjection, SectionsFit, AbsoluteSection;
    var labelled := Mapping(LabelAll(native, id, NodesOf(topo)));
    var t := Put(topo, "nodes", labelled);
    var based := BaseForm(base, t).value;
    PutKeepsOthers(topo, "nodes", labelled, SECTIONS);
    PutKeepsOthers(based, "nodes", Mapping(Inject(NodesOf(based), binds)), SECTIONS);
    match base {
      case NoBase =>
      case Directory(join) =>
        SectionsOnly(join, t);
        forall k | k in SECTIONS ensures k != "nodes" ==> Lookup(out, k) == Lookup(based, k) { SectionLook(join, t, k); }
    }
  }

  lemma SectionsOnly(join: string -> string, topo: seq<Entry>)
    ensures Without(AbsoluteTopology(join, topo), SECTIONS) == Without(topo, SECTIONS)
  {
    hide Lookup, Put, Without, AbsoluteSection;
    var a := WithSection(join, topo, "defaults");
    var b := WithSection(join, a, "groups");
    var c := WithSection(join, b, "kinds");
    SectionOnly(join, topo, "defaults");
    SectionOnly(join, a, "groups");
    SectionOnly(join, b, "kinds");
    SectionOnly(join, c, "nodes");
  }

  lemma SectionOnly(join: string -> string, topo: seq<Entry>, key: string)
    requires key in SECTIONS
    ensures Without(WithSection(join, topo, key), SECTIONS) == Without(topo, SECTIONS)
  {
    hide Lookup, Put, Without, AbsoluteSection;
    if Lookup(topo, key).Some? { PutKeepsOthers(topo, key, AbsoluteSection(join, Lookup(topo, key).value), SECTIONS); }
  }

  /** Everything that preparation does not set keeps its value and its place, at every level of the document. */
  lemma PreparationIsLossless(doc: Tree, name: string, id: string, allow: bool, native: Option<Native>, base: Base,
                              binds: map<string, seq<string>>, p: Prepared)
    requires Form(doc, name, id, allow, native, base, binds) == Ok(p)
    ensures doc.Mapping? && Without(p.root, {"name", "mgmt", "topology"}) == Without(doc.entries, {"name", "mgmt", "topology"})
    ensures Without(Ensured(Lookup(p.root, "mgmt")), {SKIP}) == Without(Ensured(Lookup(doc.entries, "mgmt")), {SKIP})
    ensures var topo, out := Ensured(Lookup(doc.entries, "topology")), Ensured(Lookup(p.root, "topology"));
      && TopologyKept(base, topo, out)
      && |NodesOf(out)| == |NodesOf(topo)|
      && forall i :: 0 <= i < |NodesOf(topo)| ==>
           NodeKept(native.value, id, base, Extra(NodesOf(topo), binds, i), NodesOf(topo)[i], NodesOf(out)[i])
  {
    hide Lookup, Put, Without, TopologyForm, TopologyKept, NodeKept, Extra, Shell, Names, TestNames, IsolatedNames, NodesOf;
    var root := Shell(doc, name).value;
    ShellTopology(doc, name, root);
    ShellKeeps(doc, name, root);
    var topo := Ensured(Lookup(root, "topology"));
    var out := TopologyForm(topo, id, allow, native.value, base, binds).value;
    assert p.root == Put(root, "topology", Mapping(out));
    PutKeepsOthers(root, "topology", Mapping(out), {"name", "mgmt", "topology"});
    assert Lookup(p.root, "mgmt") == Lookup(root, "mgmt") by { assert |"mgmt"| != |"topology"|; }
    SectionsAreKept(topo, id, allow, native.value, base, binds, out);
    NodesSettle(topo, id, allow, native.value, base, binds, out);
    forall i | 0 <= i < |NodesOf(topo)|
      ensures NodeKept(native.value, id, base, Extra(NodesOf(topo), binds, i), NodesOf(topo)[i], NodesOf(out)[i])
    {
      NodesAreKept(topo, id, allow, native.value, base, binds, out, i);
    }
  }

  lemma ShellKeeps(doc: Tree, name: string, root: seq<Entry>)
    requires Shell(doc, name) == Ok(root)
    ensures Without(root, {"name", "mgmt", "topology"}) == Without(doc.entries, {"name", "mgmt", "topology"})
    ensures Without(Ensured(Lookup(root, "mgmt")), {SKIP}) == Without(Ensured(Lookup(doc.entries, "mgmt")), {SKIP})
  {
    hide Lookup, Put, Without, SetTrueForm;
    var lab := Str(Naming.Sanitize(name));
    var named := Put(doc.entries, "name", lab);
    var mgmt := Ensured(Lookup(named, "mgmt"));
    PutKeepsOthers(doc.entries, "name", lab, {"name", "mgmt", "topology"});
    PutKeepsOthers(named, "mgmt", Mapping(SetTrueForm(mgmt, SKIP)), {"name", "mgmt", "topology"});
    assert Lookup(named, "mgmt") == Lookup(doc.entries, "mgmt") by { assert "name"[0] != "mgmt"[0]; }
    SetTrueKeepsOthers(mgmt);
  }

  lemma SetTrueKeepsOthers(mgmt: seq<Entry>)
    ensures Without(SetTrueForm(mgmt, SKIP), {SKIP}) == Without(mgmt, {SKIP})
  {
    hide Lookup, Put, Without, RetagAll;
    PutKeepsOthers(mgmt, SKIP, Str("true"), {SKIP});
    RetagKeepsOthers(Put(mgmt, SKIP, Str("true")), SKIP);
  }

  // ---------- where host paths lead ----------

  /** In a bind with a relative host path this path is joined to the directory; every other text stays. */
  predicate Relocated(join: string -> string, s: string, t: string) {
    && (':' !in s ==> t == s)
    && forall c :: 0 <= c < |s| && s[c] == ':' && ':' !in s[..c] ==>
         t == if c == 0 || s[0] == '/' || s[0] == '$' then s else join(s[..c]) + s[c..]
  }

  lemma AbsoluteRelocates(join: string -> string, s: string)
    ensures Relocated(join, s, Absolute(join, s))
  {
    var d := Colon(s);
    assert forall c :: 0 <= c < |s| && s[c] == ':' && ':' !in s[..c] ==> c == d;
  }

  /** A bind of `host` and `rest`. */
  lemma HostIsJoined(join: string -> string, host: string, rest: string)
    requires ':' !in host
    ensures Absolute(join, host + ":" + rest)
      == if host != "" && host[0] != '/' && host[0] != '$' then join(host) + ":" + rest else host + ":" + rest
  {
    var s := host + ":" + rest;
    assert s[..|host|] == host && s[|host|..] == ":" + rest && s[|host|] == ':';
    AbsoluteRelocates(join, s);
  }

  /** The same of an item: only its text can change. */
  predicate ItemRelocated(join: string -> string, a: Tree, b: Tree) {
    match a
    case Scalar(tag, s) => b.Scalar? && b.tag == tag && Relocated(join, s, b.value)
    case Alias(s) => b.Alias? && Relocated(join, s, b.name)
    case _ => b == a
  }

  predicate ItemsRelocated(join: string -> string, items: seq<Tree>, out: seq<Tree>) {
    |out| == |items| && forall j :: 0 <= j < |items| ==> ItemRelocated(join, items[j], out[j])
  }

  lemma {:induction false} ItemsRelocate(join: string -> string, items: seq<Tree>)
    ensures ItemsRelocated(join, items, AbsoluteItems(join, items))
  {
    hide Absolute, Relocated;
    if items != [] {
      AbsoluteRelocates(join, Text(items[0]));
      ItemsRelocate(join, items[1..]);
    }
  }

  /** Entry `i` is the bind list of the definition. */
  predicate IsBindList(es: seq<Entry>, i: nat)
    requires i < |es|
  {
    es[i].key == "binds" && es[i].value.Sequence? && forall j :: 0 <= j < i ==> es[j].key != "binds"
  }

  /** Of a definition only the items of its bind list change. */
  predicate DefinitionRelocated(join: string -> string, es: seq<Entry>, fs: seq<Entry>) {
    |fs| == |es| && forall i :: 0 <= i < |es| ==>
      && fs[i].key == es[i].key
      && if IsBindList(es, i) then fs[i].value.Sequence? && ItemsRelocated(join, es[i].value.items, fs[i].value.items)
         else fs[i].value == es[i].value
  }

  lemma FirstEntry(es: seq<Entry>, key: string) returns (i: nat)
    ensures i <= |es| && (i < |es| ==> es[i].key == key)
    ensures forall j :: 0 <= j < i ==> es[j].key != key
  {
    i := 0;
    while i < |es| && es[i].key != key
      invariant i <= |es| && forall j :: 0 <= j < i ==> es[j].key != key
    {
      i := i + 1;
    }
  }

  lemma DefinitionRelocates(join: string -> string, es: seq<Entry>)
    ensures DefinitionRelocated(join, es, AbsoluteDefinition(join, es))
  {
    hide Put, Lookup, ItemsRelocated, AbsoluteItems;
    var i := FirstEntry(es, "binds");
    if i < |es| {
      PutAt(es, i, "binds", es[i].value);
      if es[i].value.Sequence? {
        PutAt(es, i, "binds", Sequence(AbsoluteItems(join, es[i].value.items)));
        ItemsRelocate(join, es[i].value.items);
      }
    } else {
      PutAt(es, i, "binds", Str(""));
    }
  }

  /** A section is a definition itself and holds named ones; nothing else of it changes. */
  predicate SectionRelocated(join: string -> string, es: seq<Entry>, fs: seq<Entry>) {
    |fs| == |es| && forall i :: 0 <= i < |es| ==> EntryRelocated(join, es, fs, i)
  }

  predicate EntryRelocated(join: string -> string, es: seq<Entry>, fs: seq<Entry>, i: nat)
    requires i < |es| == |fs|
  {
    && fs[i].key == es[i].key
    && if es[i].value.Mapping? then fs[i].value.Mapping? && DefinitionRelocated(join, es[i].value.entries, fs[i].value.entries)
       else if IsBindList(es, i) then fs[i].value.Sequence? && ItemsRelocated(join, es[i].value.items, fs[i].value.items)
       else fs[i].value == es[i].value
  }

  lemma SectionRelocates(join: string -> string, es: seq<Entry>)
    ensures SectionRelocated(join, es, AbsoluteChildren(join, AbsoluteDefinition(join, es)))
  {
    hide AbsoluteDefinition, ItemsRelocated, AbsoluteChildren;
    var own := AbsoluteDefinition(join, es);
    DefinitionRelocates(join, es);
    ChildrenLength(join, own);
    forall i | 0 <= i < |es| ensures EntryRelocated(join, es, AbsoluteChildren(join, own), i) {
      ChildAt(join, own, i);
      if es[i].value.Mapping? { DefinitionRelocates(join, es[i].value.entries); }
    }
  }

  lemma {:induction false} ChildAt(join: string -> string, es: seq<Entry>, i: nat)
    requires i < |es| == |AbsoluteChildren(join, es)|
    ensures AbsoluteChildren(join, es)[i] == Entry(es[i].key,
      if es[i].value.Mapping? then Mapping(AbsoluteDefinition(join, es[i].value.entries)) else es[i].value)
  {
    hide AbsoluteDefinition;
    if i > 0 {
      ChildrenLength(join, es[1..]);
      ChildAt(join, es[1..], i - 1);
    }
  }

  /** The topology of a document whose paths were made absolute: each list of binds, item by item. */
  ghost predicate TopologyRelocated(join: string -> string, topo: seq<Entry>, out: seq<Entry>, binds: map<string,
                                    seq<string>>) {
    && |NodesOf(out)| == |NodesOf(topo)|
    && (forall i :: 0 <= i < |NodesOf(topo)| ==>
          NodeRelocated(join, NodesOf(topo)[i], NodesOf(out)[i], Extra(NodesOf(topo), binds, i)))
    && forall k :: k in {"defaults", "groups", "kinds"} ==>
         match Lookup(topo, k)
         case Some(Mapping(es)) =>
           Lookup(out, k).Some? && Lookup(out, k).value.Mapping? && SectionRelocated(join, es, Lookup(out, k).value.entries)
         case o => Lookup(out, k) == o
  }

  /** A node's own binds, item by item, and then those of the session. */
  predicate NodeRelocated(join: string -> string, e: Entry, f: Entry, extra: seq<string>) {
    && f.key == e.key && f.value.Mapping?
    && var items, out := BindItems(Ensured(Some(e.value))), BindItems(f.value.entries);
       && |out| == |items| + |extra|
       && ItemsRelocated(join, items, out[..|items|])
       && forall j :: 0 <= j < |extra| ==> out[|items| + j] == Str(extra[j])
  }

  /**
   In a prepared document item i of each bind list of the source, in every node and in every definition of each section,
   is the item of the source with just its relative host path joined to the directory.
   */
  lemma HostPathsAreJoined(doc: Tree, name: string, id: string, allow: bool, native: Option<Native>,
                           join: string -> string,
                           binds: map<string, seq<string>>, p: Prepared)
    requires Form(doc, name, id, allow, native, Directory(join), binds) == Ok(p)
    ensures doc.Mapping? && native.Some?
    ensures TopologyRelocated(join, Ensured(Lookup(doc.entries, "topology")), Ensured(Lookup(p.root, "topology")), binds)
  {
    hide Lookup, Put, Without, Form, AbsoluteItems, ItemsRelocated, SectionRelocated, Extra, AbsoluteChildren, AbsoluteDefinition;
    assert native.Some? by { BothGiven(doc, name, id, allow, native, Directory(join), binds); }
    PreparationIsLossless(doc, name, id, allow, native, Directory(join), binds, p);
    var topo, out := Ensured(Lookup(doc.entries, "topology")), Ensured(Lookup(p.root, "topology"));
    forall i | 0 <= i < |NodesOf(topo)|
      ensures NodeRelocated(join, NodesOf(topo)[i], NodesOf(out)[i], Extra(NodesOf(topo), binds, i))
    {
      KeptIsRelocated(native.value, id, join, Extra(NodesOf(topo), binds, i), NodesOf(topo)[i], NodesOf(out)[i]);
    }
    hide NodeRelocated, NodeKept;
    forall k | k in {"defaults", "groups", "kinds"} && Lookup(topo, k).Some? && Lookup(topo, k).value.Mapping?
      ensures SectionRelocated(join, Lookup(topo, k).value.entries, Ensured(Lookup(out, k)))
    {
      SectionRelocates(join, Lookup(topo, k).value.entries);
    }
  }

  lemma BothGiven(doc: Tree, name: string, id: string, allow: bool, native: Option<Native>, base: Base,
                  binds: map<string, seq<string>>)
    requires Form(doc, name, id, allow, native, base, binds).Ok?
    ensures native.Some?
  {
  }

  lemma KeptIsRelocated(native: Native, id: string, join: string -> string, extra: seq<string>, e: Entry, f: Entry)
    requires NodeKept(native, id, Directory(join), extra, e, f)
    ensures NodeRelocated(join, e, f, extra)
  {
    hide Lookup, Without, ItemsRelocated, Mode;
    var es := AsMapping(e.value).entries;
    assert BindItems(Ensured(Some(e.value))) == BindItems(es) by { EmptyHasNoBinds(); }
    ItemsRelocate(join, BindItems(es));
    var items := AbsoluteItems(join, BindItems(es));
    assert |items| == |BindItems(es)| by { ItemsLength(join, BindItems(es)); }
    assert (items + Strs(extra))[..|items|] == items;
  }

  lemma {:induction false} ItemsLength(join: string -> string, items: seq<Tree>)
    ensures |AbsoluteItems(join, items)| == |items|
  {
    if items != [] { ItemsLength(join, items[1..]); }
  }

  lemma EmptyHasNoBinds()
    ensures BindItems([]) == []
  {
  }

  // ---------- ownership ----------

  /** The labels by which a session finds its containers again. */
  predicate OwnedBy(id: string, e: Entry) {
    && e.value.Mapping?
    && var labels := Ensured(Lookup(e.value.entries, "labels"));
       Lookup(labels, SESSION) == Some(Str(id)) && Lookup(labels, MANAGED) == Some(Str("true"))
  }

  /** A prepared document bears its lab name, keeps the management network off, and marks every node as the session's. */
  lemma PreparedIsOwned(doc: Tree, name: string, id: string, allow: bool, native: Option<Native>, base: Base,
                        binds: map<string, seq<string>>, p: Prepared)
    requires Form(doc, name, id, allow, native, base, binds) == Ok(p)
    ensures Lookup(p.root, "name") == Some(Str(p.name)) && p.name == Naming.Sanitize(name) != ""
    ensures Lookup(Ensured(Lookup(p.root, "mgmt")), SKIP) == Some(Scalar("!!bool", "true"))
    ensures forall e :: e in NodesOf(Ensured(Lookup(p.root, "topology"))) ==> OwnedBy(id, e)
    ensures p.nodes == Names(NodesOf(Ensured(Lookup(p.root, "topology")))) != {}
  {
    hide Lookup, Put, TopologyForm, Shell, Naming.Sanitize, SetTrueForm, Names, TestNames, IsolatedNames, OwnedBy;
    var root := Shell(doc, name).value;
    var topo := Ensured(Lookup(root, "topology"));
    var out := TopologyForm(topo, id, allow, native.value, base, binds).value;
    ShellLooks(doc, name, root);
    ShellTopology(doc, name, root);
    NodesSettle(topo, id, allow, native.value, base, binds, out);
    assert Lookup(p.root, "topology") == Some(Mapping(out));
    assert Lookup(p.root, "name") == Lookup(root, "name") && Lookup(p.root, "mgmt") == Lookup(root, "mgmt") by {
      assert |"name"| != |"topology"| && |"mgmt"| != |"topology"|;
    }
    SettledIsOwned(native.value, id, allow, NodesOf(out));
  }

  lemma SettledIsOwned(native: Native, id: string, allow: bool, nodes: seq<Entry>)
    requires Settled(native, id, allow, nodes) && nodes != []
    ensures Names(nodes) != {} && forall e :: e in nodes ==> OwnedBy(id, e)
  {
    hide Lookup, Put;
    assert nodes[0] in nodes && nodes[0].key in Names(nodes);
    forall e | e in nodes ensures OwnedBy(id, e) {
      var i :| 0 <= i < |nodes| && nodes[i] == e;
      assert SettledNode(native, id, allow, nodes[i].key, nodes[i].value);
      OwnerLabelsAreSet(id, Ensured(Lookup(e.value.entries, "labels")));
    }
  }

  // ---------- isolation ----------

  /** The mode that the node resolves to: its own if it is a non-empty scalar, or else the inherited one. */
  predicate Resolves(native: Native, e: Entry, mode: string) {
    var own := if e.value.Mapping? then Lookup(e.value.entries, "network-mode") else None;
    if own.Some? && own.value.Scalar? && own.value.tag != "!!null" && own.value.value != ""
    then own.value.value == mode
    else native.inherited(e.key) == mode
  }

  predicate OwnContainer(native: Native, e: Entry) {
    native.kind(e.key) != "bridge" && native.kind(e.key) != "ovs-bridge"
  }

  predicate Isolated(native: Native, e: Entry) {
    OwnContainer(native, e) && native.ports(e.key) == Some(0) && e.value.Mapping? && Resolves(native, e, "none")
  }

  predicate Internal(l: Link) {
    l.Link? && !l.leaves && "host" !in l.endpoints && "mgmt-net" !in l.endpoints
  }

  /**
   A lab prepared without external access is isolated: all its nodes are test nodes without a network of their
   own, whatever they inherit, none publishes a port, and no link leaves the lab.
   */
  lemma PreparedLabIsIsolated(doc: Tree, name: string, id: string, native: Option<Native>, base: Base,
                              binds: map<string, seq<string>>, p: Prepared)
    requires Form(doc, name, id, false, native, base, binds) == Ok(p)
    ensures p.isolated == p.tests == p.nodes
    ensures native.Some?
    ensures forall e :: e in NodesOf(Ensured(Lookup(p.root, "topology"))) ==> Isolated(native.value, e)
    ensures forall l :: l in native.value.links ==> Internal(l)
  {
    hide Lookup, Put, TopologyForm, Shell, FirstObjection, SettledNode, Mode, Resolves, LinkObjection, Naming.Sanitize;
    var root := Shell(doc, name).value;
    var topo := Ensured(Lookup(root, "topology"));
    var out := TopologyForm(topo, id, false, native.value, base, binds).value;
    NodesSettle(topo, id, false, native.value, base, binds, out);
    assert Lookup(p.root, "topology") == Some(Mapping(out));
    forall e | e in NodesOf(out) ensures Isolated(native.value, e) && Mode(native.value, e.key, Ensured(Some(e.value))) == "none" {
      var i :| 0 <= i < |NodesOf(out)| && NodesOf(out)[i] == e;
      SettledIsIsolated(native.value, id, e);
    }
    InternalLinks(native.value.links);
  }

  lemma SettledIsIsolated(native: Native, id: string, e: Entry)
    requires SettledNode(native, id, false, e.key, e.value)
    ensures Isolated(native, e) && Mode(native, e.key, Ensured(Some(e.value))) == "none"
  {
    hide SettledLabels, Lookup;
  }

  lemma {:induction false} InternalLinks(links: seq<Link>)
    ensures LinkObjection(links) == None <==> forall l :: l in links ==> Internal(l)
  {
    if links != [] {
      InternalLinks(links[1..]);
      assert links[0] in links && links == [links[0]] + links[1..];
    }
  }

  /** The roles: every node, those with a container of their own, and of these the ones cut off. */
  lemma RolesAreRead(doc: Tree, name: string, id: string, allow: bool, native: Option<Native>, base: Base,
                     binds: map<string, seq<string>>, p: Prepared)
    requires Form(doc, name, id, allow, native, base, binds) == Ok(p)
    ensures native.Some?
    ensures var nodes := NodesOf(Ensured(Lookup(p.root, "topology")));
      forall n ::
        && (n in p.nodes <==> exists e :: e in nodes && e.key == n)
        && (n in p.tests <==> exists e :: e in nodes && e.key == n && OwnContainer(native.value, e))
        && (n in p.isolated <==> exists e :: e in nodes && e.key == n && OwnContainer(native.value, e) && Resolves(native.value, e, "none"))
  {
    hide Lookup, Put, TopologyForm, Shell, Naming.Sanitize, Resolves, Mode;
    var root := Shell(doc, name).value;
    var out := TopologyForm(Ensured(Lookup(root, "topology")), id, allow, native.value, base, binds).value;
    assert Lookup(p.root, "topology") == Some(Mapping(out));
    forall e: Entry ensures Mode(native.value, e.key, Ensured(Some(e.value))) == "none" <==> Resolves(native.value, e, "none") {
      ModeResolves(native.value, e, "none");
    }
  }

  lemma ModeResolves(native: Native, e: Entry, mode: string)
    ensures Mode(native, e.key, Ensured(Some(e.value))) == mode <==> Resolves(native, e, mode)
  {
  }

  // ---------- what is accepted ----------

  /** A node that an isolated lab may have. */
  predicate MayStay(native: Native, e: Entry) {
    && OwnContainer(native, e) && native.ports(e.key) == Some(0)
    && (Resolves(native, e, "none") || Resolves(native, e, ""))
  }

  /** Where there is a bind list, it is one. */
  predicate ListFits(es: seq<Entry>) {
    Lookup(es, "binds").Some? ==> Lookup(es, "binds").value.Sequence?
  }

  predicate ListsFit(o: Option<Tree>) {
    o.Some? && o.value.Mapping? ==>
      ListFits(o.value.entries) && forall e :: e in o.value.entries && e.value.Mapping? ==> ListFits(e.value.entries)
  }

  /** The document has a topology with nodes, and a management section that is a mapping if it is anything. */
  predicate WellShaped(doc: Tree) {
    && doc.Mapping?
    && (var mgmt := Lookup(doc.entries, "mgmt"); mgmt.Some? ==> mgmt.value.Mapping? || IsNull(mgmt.value))
    && var topology := Lookup(doc.entries, "topology");
       && topology.Some? && topology.value.Mapping?
       && var nodes := Lookup(topology.value.entries, "nodes");
          nodes.Some? && nodes.value.Mapping? && nodes.value.entries != []
  }

  /** Everything that a preparation asks of the document and its options. */
  predicate Acceptable(doc: Tree, name: string, allow: bool, native: Option<Native>, base: Base, binds: map<string,
                       seq<string>>) {
    && WellShaped(doc) && Naming.Sanitize(name) != "" && native.Some?
    && var topo := Lookup(doc.entries, "topology").value.entries;
       var nodes := Lookup(topo, "nodes").value.entries;
       && (forall e :: e in nodes ==> e.value.Mapping? || IsNull(e.value))
       && (!allow ==>
             && (forall e :: e in nodes ==> MayStay(native.value, e))
             && (forall l :: l in native.value.links ==> Internal(l)))
       && (base.Directory? ==> forall k :: k in SECTIONS ==> ListsFit(Lookup(topo, k)))
       && (forall n :: n in binds ==> exists e :: e in nodes && e.key == n)
  }

  lemma ShellIff(doc: Tree, name: string)
    ensures Shell(doc, name).Ok? <==> WellShaped(doc) && Naming.Sanitize(name) != ""
  {
    hide Put, Naming.Sanitize, SetTrueForm;
    if doc.Mapping? {
      assert "name" != "topology" by { assert |"name"| == 4 && |"topology"| == 8; }
      assert "name" != "mgmt" by { assert "name"[0] != "mgmt"[0]; }
    }
  }

  /** A document is prepared exactly when it and the options are acceptable; everything else is refused. */
  lemma PreparesIff(doc: Tree, name: string, id: string, allow: bool, native: Option<Native>, base: Base,
                    binds: map<string, seq<string>>)
    ensures Form(doc, name, id, allow, native, base, binds).Ok? <==> Acceptable(doc, name, allow, native, base, binds)
  {
    hide Lookup, Put, Shell, TopologyForm, Naming.Sanitize, Names, TestNames, IsolatedNames, WellShaped, MayStay, Internal, ListsFit;
    ShellIff(doc, name);
    if Shell(doc, name).Ok? && native.Some? {
      var root := Shell(doc, name).value;
      ShellTopology(doc, name, root);
      TopologyIff(Ensured(Lookup(root, "topology")), id, allow, native.value, base, binds);
      ShapedNodes(doc);
    }
  }

  lemma ShapedNodes(doc: Tree)
    requires WellShaped(doc)
    ensures var topo := Ensured(Lookup(doc.entries, "topology"));
      Lookup(doc.entries, "topology") == Some(Mapping(topo)) && Lookup(topo, "nodes") == Some(Mapping(NodesOf(topo)))
  {
  }

  lemma TopologyIff(topo: seq<Entry>, id: string, allow: bool, native: Native, base: Base, binds: map<string,
                    seq<string>>)
    requires Lookup(topo, "nodes") == Some(Mapping(NodesOf(topo)))
    ensures TopologyForm(topo, id, allow, native, base, binds).Ok? <==>
      && (forall e :: e in NodesOf(topo) ==> e.value.Mapping? || IsNull(e.value))
      && (!allow ==> (forall e :: e in NodesOf(topo) ==> MayStay(native, e)) && (forall l :: l in native.links ==> Internal(l)))
      && (base.Directory? ==> forall k :: k in SECTIONS ==> ListsFit(Lookup(topo, k)))
      && (forall n :: n in binds ==> exists e :: e in NodesOf(topo) && e.key == n)
  {
    hide Lookup, Put, MayStay, Internal, ListsFit, FirstObjection, LinkObjection, LabelAll, SectionFits, AbsoluteTopology, Names;
    var nodes := NodesOf(topo);
    NoObjectionIff(native, allow, nodes);
    InternalLinks(native.links);
    if LabelForm(native, id, allow, nodes).Ok? {
      var labelled := LabelAll(native, id, nodes);
      var t := Put(topo, "nodes", Mapping(labelled));
      LabelledListsFit(native, id, nodes);
      assert |"defaults"| == 8 && |"groups"| == 6 && |"kinds"| == 5 && |"nodes"| == 5 && "kinds"[0] != "nodes"[0];
      forall k | k in SECTIONS ensures SectionFits(Lookup(t, k)) <==> ListsFit(Lookup(topo, k)) { SectionFitsIff(Lookup(t, k)); }
      if BaseForm(base, t).Ok? { NamedIff(topo, id, allow, native, base, binds, labelled); }
    }
  }

  lemma NamedIff(topo: seq<Entry>, id: string, allow: bool, native: Native, base: Base, binds: map<string, seq<string>>,
                 labelled: seq<Entry>)
    requires FirstObjection(native, allow, NodesOf(topo)) == None && labelled == LabelAll(native, id, NodesOf(topo))
    requires BaseForm(base, Put(topo, "nodes", Mapping(labelled))).Ok?
    ensures var based := NodesOf(BaseForm(base, Put(topo, "nodes", Mapping(labelled))).value);
      AllNamed(based, binds) <==> forall n :: n in binds ==> exists e :: e in NodesOf(topo) && e.key == n
  {
    hide Lookup, Put, LabelAll, FirstObjection, BaseForm, SettledNode, Labelled;
    var nodes := NodesOf(topo);
    LabelAllSettles(native, id, allow, nodes);
    BasedNodes(Put(topo, "nodes", Mapping(labelled)), id, allow, native, base, labelled);
    var based := NodesOf(BaseForm(base, Put(topo, "nodes", Mapping(labelled))).value);
    forall i | 0 <= i < |nodes| ensures based[i].key == nodes[i].key { LabelAllAt(native, id, nodes, i); }
    SameKeys(nodes, based);
    forall n ensures Lookup(nodes, n).Some? <==> exists e :: e in nodes && e.key == n { HasKey(nodes, n); }
  }

  lemma {:induction false} HasKey(es: seq<Entry>, key: string)
    ensures Lookup(es, key).Some? <==> exists e :: e in es && e.key == key
  {
    if es != [] {
      assert es == [es[0]] + es[1..] && es[0] in es;
      HasKey(es[1..], key);
    }
  }

  lemma {:induction false} NoObjectionIff(native: Native, allow: bool, es: seq<Entry>)
    ensures FirstObjection(native, allow, es) == None <==>
      && (forall e :: e in es ==> e.value.Mapping? || IsNull(e.value))
      && (!allow ==> forall e :: e in es ==> MayStay(native, e))
  {
    hide Lookup, MayStay, Objection;
    if es != [] {
      assert es == [es[0]] + es[1..];
      ObjectionIff(native, allow, es[0]);
      NoObjectionIff(native, allow, es[1..]);
    }
  }

  lemma ObjectionIff(native: Native, allow: bool, e: Entry)
    ensures Objection(native, allow, e.key, e.value) == None <==>
      (e.value.Mapping? || IsNull(e.value)) && (!allow ==> MayStay(native, e))
  {
    assert Lookup([], "network-mode") == None;
  }

  lemma {:induction false} ChildrenFitIff(es: seq<Entry>)
    ensures ChildrenFit(es) <==> forall e :: e in es && e.value.Mapping? ==> ListFits(e.value.entries)
  {
    hide Lookup;
    if es != [] {
      assert es == [es[0]] + es[1..];
      ChildrenFitIff(es[1..]);
    }
  }

  lemma SectionFitsIff(o: Option<Tree>)
    ensures SectionFits(o) <==> ListsFit(o)
  {
    hide Lookup, ChildrenFit;
    if o.Some? && o.value.Mapping? { ChildrenFitIff(o.value.entries); }
  }

  /** Labelling leaves bind lists alone. */
  lemma LabelledFits(native: Native, id: string, e: Entry)
    requires e.value.Mapping? || IsNull(e.value)
    ensures var t := Labelled(native, id, e.key, e.value);
      t.Mapping? && (ListFits(t.entries) <==> e.value.Mapping? ==> ListFits(e.value.entries))
  {
    hide Put;
    assert |"network-mode"| == 12 && |"labels"| == 6 && |"binds"| == 5;
    assert Lookup([], "binds") == None;
  }

  lemma LabelledListsFit(native: Native, id: string, es: seq<Entry>)
    requires forall e :: e in es ==> e.value.Mapping? || IsNull(e.value)
    ensures ListsFit(Some(Mapping(LabelAll(native, id, es)))) <==> ListsFit(Some(Mapping(es)))
  {
    hide Lookup, Labelled, LabelAll, ListFits;
    var fs := LabelAll(native, id, es);
    if es == [] { NothingLabelled(native, id); } else { LabelAllAt(native, id, es, 0); }
    assert |fs| == |es|;
    forall i | 0 <= i < |es| ensures fs[i] == Entry(es[i].key, Labelled(native, id, es[i].key, es[i].value)) {
      LabelAllAt(native, id, es, i);
    }
    forall i | 0 <= i < |es|
      ensures fs[i].value.Mapping? && (ListFits(fs[i].value.entries) <==> es[i].value.Mapping? ==> ListFits(es[i].value.entries))
    {
      assert es[i] in es;
      LabelledFits(native, id, es[i]);
    }
    forall f | f in fs ensures f.value.Mapping? {
      var i :| 0 <= i < |fs| && fs[i] == f;
    }
    NoListOf(es);
    NoListOf(fs);
    SameKeys(es, fs);
    forall e | e in es && e.value.Mapping? ensures exists f :: f in fs && (ListFits(f.value.entries) <==> ListFits(e.value.entries)) {
      var i :| 0 <= i < |es| && es[i] == e;
      assert fs[i] in fs;
    }
    forall f | f in fs ensures ListFits(f.value.entries) || exists e :: e in es && e.value.Mapping? && !ListFits(e.value.entries) {
      var i :| 0 <= i < |fs| && fs[i] == f;
      assert es[i] in es;
    }
  }

  lemma NothingLabelled(native: Native, id: string)
    ensures LabelAll(native, id, []) == []
  {
  }

  lemma {:induction false} SameKeys(es: seq<Entry>, fs: seq<Entry>)
    requires |es| == |fs| && forall i :: 0 <= i < |es| ==> es[i].key == fs[i].key
    ensures forall k :: Lookup(es, k).Some? == Lookup(fs, k).Some?
    ensures Names(es) == Names(fs)
  {
    if es != [] {
      assert es == [es[0]] + es[1..] && fs == [fs[0]] + fs[1..];
      SameKeys(es[1..], fs[1..]);
      assert Names(es) == {es[0].key} + Names(es[1..]) && Names(fs) == {fs[0].key} + Names(fs[1..]);
    }
  }

  /** Among entries that are mappings or null there is no bind list: it fits only if there is none. */
  lemma {:induction false} NoListOf(es: seq<Entry>)
    requires forall e :: e in es ==> e.value.Mapping? || IsNull(e.value)
    ensures ListFits(es) <==> Lookup(es, "binds").None?
  {
    if es != [] {
      assert es[0] in es && forall e :: e in es[1..] ==> e in es;
      NoListOf(es[1..]);
    }
  }
}
