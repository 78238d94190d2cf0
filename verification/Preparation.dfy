/**
 A Containerlab topology made private to one session: PrepareWithOptions and its helpers
 (pkg/spec/topology.go).

 Containerlab resolves a node's kind, its inherited network mode, its ports and the links itself. What it answers
 is a parameter here; a network mode written on the node wins over an inherited one.
 */
module Preparation {
  import opened Records
  import opened Yaml
  import Naming

  const SESSION := "labcontainers.appmana.com/session"
  const MANAGED := "labcontainers.appmana.com/managed"
  const SKIP := "skip-when-unused"

  /** `leaves`: a host, management, macvlan or vxlan link; the endpoints are those of veth links. */
  datatype Link = NullLink | Link(leaves: bool, endpoints: seq<string>)

  datatype Native = Native(kind: string -> string, inherited: string -> string,
                           ports: string -> Option<nat>, links: seq<Link>)

  /** The directory of the topology source, as the function that joins a path to it. */
  datatype Base = NoBase | Directory(join: string -> string)

  datatype Refusal =
    | NoMappingRoot | NoName | NoTopology | NoNodes | BadMgmt | NotNative
    | NodeNotMapping | BorrowsBridge | NotIsolated | BadPorts | PublishesPorts
    | LinkIsNull | LeavesLab | BindsNotSequence | UnknownNode

  datatype Result<+T> = Ok(value: T) | Refused(why: Refusal)

  /** The private topology: its document, its lab name, its nodes, those it tests and those it isolates. */
  datatype Prepared = Prepared(name: string, root: seq<Entry>, nodes: set<string>,
                               tests: set<string>, isolated: set<string>)

  // ---------- nodes: isolation and ownership ----------

  predicate Borrowed(native: Native, name: string) {
    native.kind(name) == "bridge" || native.kind(name) == "ovs-bridge"
  }

  /** The mode written on the node itself, given its entry. */
  function Explicit(o: Option<Tree>): string {
    match o
    case Some(Scalar(tag, mode)) => if tag == "!!null" then "" else mode
    case _ => ""
  }

  function ModeOf(native: Native, name: string, o: Option<Tree>): string {
    if Explicit(o) != "" then Explicit(o) else native.inherited(name)
  }

  function Mode(native: Native, name: string, es: seq<Entry>): string {
    ModeOf(native, name, Lookup(es, "network-mode"))
  }

  /** A node without a value is a node without settings. */
  function AsMapping(t: Tree): Tree { if IsNull(t) then Mapping([]) else t }

  function Ensured(o: Option<Tree>): seq<Entry> {
    match o
    case Some(Mapping(es)) => es
    case _ => []
  }

  /** Why a node with this network mode cannot be part of the lab. */
  function ModeObjection(native: Native, name: string, mode: string): Option<Refusal> {
    if Borrowed(native, name) then Some(BorrowsBridge)
    else if mode != "" && mode != "none" then Some(NotIsolated)
    else match native.ports(name)
      case None => Some(BadPorts)
      case Some(published) => if published != 0 then Some(PublishesPorts) else None
  }

  function Objection(native: Native, allow: bool, name: string, node: Tree): Option<Refusal> {
    match AsMapping(node)
    case Mapping(es) => if allow then None else ModeObjection(native, name, Mode(native, name, es))
    case _ => Some(NodeNotMapping)
  }

  function FirstObjection(native: Native, allow: bool, es: seq<Entry>): Option<Refusal> {
    if es == [] then None
    else
      var o := Objection(native, allow, es[0].key, es[0].value);
      if o.Some? then o else FirstObjection(native, allow, es[1..])
  }

  function OwnerLabels(id: string, labels: seq<Entry>): seq<Entry> {
    Put(Put(labels, SESSION, Str(id)), MANAGED, Str("true"))
  }

  /** A node without any network mode is cut off rather than given the management network. */
  function WithMode(native: Native, name: string, es: seq<Entry>): seq<Entry> {
    if !Borrowed(native, name) && Mode(native, name, es) == "" then Put(es, "network-mode", Str("none")) else es
  }

  function WithLabels(id: string, es: seq<Entry>): seq<Entry> {
    Put(es, "labels", Mapping(OwnerLabels(id, Ensured(Lookup(es, "labels")))))
  }

  function Labelled(native: Native, id: string, name: string, node: Tree): Tree {
    match AsMapping(node)
    case Mapping(es) => Mapping(WithLabels(id, WithMode(native, name, es)))
    case _ => node
  }

  function LabelAll(native: Native, id: string, es: seq<Entry>): seq<Entry> {
    if es == [] then []
    else [Entry(es[0].key, Labelled(native, id, es[0].key, es[0].value))] + LabelAll(native, id, es[1..])
  }

  function LinkObjection(links: seq<Link>): Option<Refusal> {
    if links == [] then None
    else match links[0]
      case NullLink => Some(LinkIsNull)
      case Link(leaves, endpoints) =>
        if leaves || "host" in endpoints || "mgmt-net" in endpoints then Some(LeavesLab)
        else LinkObjection(links[1..])
  }

  function LabelForm(native: Native, id: string, allow: bool, nodes: seq<Entry>): Result<seq<Entry>> {
    match FirstObjection(native, allow, nodes)
    case Some(why) => Refused(why)
    case None =>
      match if allow then None else LinkObjection(native.links)
      case Some(why) => Refused(why)
      case None => Ok(LabelAll(native, id, nodes))
  }

  // ---------- binds: absolute host paths and session attachments ----------

  /** The position of the first colon, or the length. */
  function Colon(s: string): (c: nat)
    ensures c <= |s| && ':' !in s[..c] && (c < |s| ==> s[c] == ':')
  {
    if s == "" || s[0] == ':' then 0
    else
      var c := 1 + Colon(s[1..]);
      assert s[..c] == [s[0]] + s[1..][..c - 1];
      c
  }

  /** A relative host path becomes absolute; what follows the first colon stays. */
  function Absolute(join: string -> string, s: string): string {
    var c := Colon(s);
    if c == |s| || c == 0 || s[0] == '/' || s[0] == '$' then s else join(s[..c]) + s[c..]
  }

  function AbsoluteItems(join: string -> string, items: seq<Tree>): seq<Tree> {
    if items == [] then []
    else [WithText(items[0], Absolute(join, Text(items[0])))] + AbsoluteItems(join, items[1..])
  }

  predicate BindsFit(es: seq<Entry>) {
    match Lookup(es, "binds")
    case None => true
    case Some(t) => t.Sequence?
  }

  function AbsoluteDefinition(join: string -> string, es: seq<Entry>): seq<Entry> {
    match Lookup(es, "binds")
    case Some(Sequence(items)) => Put(es, "binds", Sequence(AbsoluteItems(join, items)))
    case _ => es
  }

  predicate ChildrenFit(es: seq<Entry>) {
    es == [] || ((es[0].value.Mapping? ==> BindsFit(es[0].value.entries)) && ChildrenFit(es[1..]))
  }

  function AbsoluteChildren(join: string -> string, es: seq<Entry>): seq<Entry> {
    if es == [] then []
    else
      var v := es[0].value;
      [Entry(es[0].key, if v.Mapping? then Mapping(AbsoluteDefinition(join, v.entries)) else v)]
      + AbsoluteChildren(join, es[1..])
  }

  /** A section of the topology: itself a definition, or a mapping of named ones. */
  predicate SectionFits(t: Option<Tree>) {
    match t
    case Some(Mapping(es)) => BindsFit(es) && ChildrenFit(es)
    case _ => true
  }

  function AbsoluteSection(join: string -> string, t: Tree): Tree {
    match t
    case Mapping(es) => Mapping(AbsoluteChildren(join, AbsoluteDefinition(join, es)))
    case _ => t
  }

  function WithSection(join: string -> string, topo: seq<Entry>, key: string): seq<Entry> {
    match Lookup(topo, key)
    case Some(t) => Put(topo, key, AbsoluteSection(join, t))
    case None => topo
  }

  predicate SectionsFit(topo: seq<Entry>) {
    && SectionFits(Lookup(topo, "defaults")) && SectionFits(Lookup(topo, "groups"))
    && SectionFits(Lookup(topo, "kinds")) && SectionFits(Lookup(topo, "nodes"))
  }

  function AbsoluteTopology(join: string -> string, topo: seq<Entry>): seq<Entry> {
    var a := WithSection(join, topo, "defaults");
    var b := WithSection(join, a, "groups");
    var c := WithSection(join, b, "kinds");
    WithSection(join, c, "nodes")
  }

  function BaseForm(base: Base, topo: seq<Entry>): Result<seq<Entry>> {
    match base
    case NoBase => Ok(topo)
    case Directory(join) =>
      if SectionsFit(topo) then Ok(AbsoluteTopology(join, topo)) else Refused(BindsNotSequence)
  }

  function Strs(ss: seq<string>): (r: seq<Tree>)
    ensures |r| == |ss| && forall i :: 0 <= i < |ss| ==> r[i] == Str(ss[i])
  {
    if ss == [] then [] else [Str(ss[0])] + Strs(ss[1..])
  }

  /** The items of the node's bind list; anything but a sequence counts as an empty one. */
  function BindItems(es: seq<Entry>): seq<Tree> {
    match Lookup(es, "binds")
    case Some(Sequence(items)) => items
    case _ => []
  }

  function AppendBinds(es: seq<Entry>, binds: seq<string>): seq<Entry> {
    Put(es, "binds", Sequence(BindItems(es) + Strs(binds)))
  }

  function AppendTo(t: Tree, binds: seq<string>): Tree {
    if t.Mapping? then Mapping(AppendBinds(t.entries, binds)) else t
  }

  /** Every named node with its binds appended: the first node of that name. */
  function Inject(es: seq<Entry>, binds: map<string, seq<string>>): seq<Entry> {
    if es == [] then []
    else
      var e := es[0];
      [Entry(e.key, if e.key in binds then AppendTo(e.value, binds[e.key]) else e.value)]
      + Inject(es[1..], binds - {e.key})
  }

  predicate AllNamed(es: seq<Entry>, binds: map<string, seq<string>>) {
    forall n :: n in binds ==> Lookup(es, n).Some?
  }

  // ---------- the whole preparation ----------

  function Names(es: seq<Entry>): set<string> {
    set e | e in es :: e.key
  }

  function TestNames(native: Native, es: seq<Entry>): set<string> {
    set e | e in es && !Borrowed(native, e.key) :: e.key
  }

  function IsolatedNames(native: Native, es: seq<Entry>): set<string> {
    set e | e in es && !Borrowed(native, e.key) && Mode(native, e.key, Ensured(Some(e.value))) == "none" :: e.key
  }

  /** The document with its name set, and its topology before any change. */
  function Shell(doc: Tree, name: string): Result<seq<Entry>> {
    if !doc.Mapping? then Refused(NoMappingRoot)
    else if Naming.Sanitize(name) == "" then Refused(NoName)
    else
      var root := Put(doc.entries, "name", Str(Naming.Sanitize(name)));
      match Lookup(root, "topology")
      case Some(Mapping(topo)) =>
        (match Lookup(topo, "nodes")
         case Some(Mapping(nodes)) =>
           if nodes == [] then Refused(NoNodes)
           else
             var mgmt := Lookup(root, "mgmt");
             if mgmt.Some? && !mgmt.value.Mapping? && !IsNull(mgmt.value) then Refused(BadMgmt)
             else Ok(Put(root, "mgmt", Mapping(SetTrueForm(Ensured(mgmt), SKIP))))
         case _ => Refused(NoNodes))
      case _ => Refused(NoTopology)
  }

  function NodesOf(topo: seq<Entry>): seq<Entry> { Ensured(Lookup(topo, "nodes")) }

  /** The topology with labelled nodes and absolute host paths. */
  function BasedForm(topo: seq<Entry>, id: string, allow: bool, native: Native, base: Base): Result<seq<Entry>> {
    match LabelForm(native, id, allow, NodesOf(topo))
    case Refused(why) => Refused(why)
    case Ok(labelled) => BaseForm(base, Put(topo, "nodes", Mapping(labelled)))
  }

  /** The same with the session's binds. */
  function TopologyForm(topo: seq<Entry>, id: string, allow: bool, native: Native, base: Base,
                        binds: map<string, seq<string>>): Result<seq<Entry>>
  {
    match BasedForm(topo, id, allow, native, base)
    case Refused(why) => Refused(why)
    case Ok(based) =>
      if AllNamed(NodesOf(based), binds)
      then Ok(Put(based, "nodes", Mapping(Inject(NodesOf(based), binds))))
      else Refused(UnknownNode)
  }

  function Form(doc: Tree, name: string, id: string, allow: bool, native: Option<Native>, base: Base,
                binds: map<string, seq<string>>): Result<Prepared>
  {
    match Shell(doc, name)
    case Refused(why) => Refused(why)
    case Ok(root) =>
      if native.None? then Refused(NotNative)
      else
        match TopologyForm(Ensured(Lookup(root, "topology")), id, allow, native.value, base, binds)
        case Refused(why) => Refused(why)
        case Ok(topo) =>
          var nodes := NodesOf(topo);
          Ok(Prepared(Naming.Sanitize(name), Put(root, "topology", Mapping(topo)), Names(nodes),
                      TestNames(native.value, nodes), IsolatedNames(native.value, nodes)))
  }

  // ---------- what preparing again does ----------

  /** The node carries everything that labelling would set, and nothing it would refuse. */
  predicate SettledNode(native: Native, id: string, allow: bool, name: string, t: Tree) {
    && t.Mapping?
    && SettledMode(native, allow, name, Mode(native, name, t.entries))
    && SettledLabels(id, Lookup(t.entries, "labels"))
  }

  predicate SettledMode(native: Native, allow: bool, name: string, mode: string) {
    && (allow || ModeObjection(native, name, mode) == None)
    && (Borrowed(native, name) || mode != "")
  }

  predicate SettledLabels(id: string, o: Option<Tree>) {
    match o
    case Some(Mapping(labels)) => OwnerLabels(id, labels) == labels
    case _ => false
  }

  predicate Settled(native: Native, id: string, allow: bool, es: seq<Entry>) {
    forall i :: 0 <= i < |es| ==> SettledNode(native, id, allow, es[i].key, es[i].value)
  }

  /** The same nodes in the same order, except for their binds. */
  predicate Rebound(es: seq<Entry>, fs: seq<Entry>) {
    |es| == |fs| && forall i :: 0 <= i < |es| ==> ReboundNode(es[i], fs[i])
  }

  predicate ReboundNode(e: Entry, f: Entry) {
    && e.key == f.key && e.value.Mapping? && f.value.Mapping?
    && Without(f.value.entries, {"binds"}) == Without(e.value.entries, {"binds"})
  }

  lemma WithModeSettles(native: Native, allow: bool, name: string, es: seq<Entry>)
    requires allow || ModeObjection(native, name, Mode(native, name, es)) == None
    ensures SettledMode(native, allow, name, Mode(native, name, WithMode(native, name, es)))
  {
    if !Borrowed(native, name) && Mode(native, name, es) == "" {
      assert Lookup(WithMode(native, name, es), "network-mode") == Some(Str("none"));
    }
  }

  lemma WithLabelsSettles(id: string, es: seq<Entry>)
    ensures SettledLabels(id, Lookup(WithLabels(id, es), "labels"))
  {
    var labels := Ensured(Lookup(es, "labels"));
    OwnerLabelsAreSet(id, labels);
    assert Lookup(WithLabels(id, es), "labels") == Some(Mapping(OwnerLabels(id, labels)));
  }

  lemma WithLabelsKeepsMode(id: string, es: seq<Entry>)
    ensures Lookup(WithLabels(id, es), "network-mode") == Lookup(es, "network-mode")
  {
    assert |"labels"| != |"network-mode"|;
  }

  lemma OwnerLabelsAreSet(id: string, labels: seq<Entry>)
    ensures var ls := OwnerLabels(id, labels);
      && Lookup(ls, SESSION) == Some(Str(id)) && Lookup(ls, MANAGED) == Some(Str("true"))
      && OwnerLabels(id, ls) == ls
      && Without(ls, {SESSION, MANAGED}) == Without(labels, {SESSION, MANAGED})
  {
    PutKeepsOthers(labels, SESSION, Str(id), {SESSION, MANAGED});
    PutKeepsOthers(Put(labels, SESSION, Str(id)), MANAGED, Str("true"), {SESSION, MANAGED});
  }

  lemma LabelledSettles(native: Native, id: string, allow: bool, name: string, node: Tree)
    requires Objection(native, allow, name, node) == None
    ensures SettledNode(native, id, allow, name, Labelled(native, id, name, node))
  {
    var es := AsMapping(node).entries;
    WithModeSettles(native, allow, name, es);
    WithLabelsSettles(id, WithMode(native, name, es));
    WithLabelsKeepsMode(id, WithMode(native, name, es));
  }

  lemma SettledNodeIsFixed(native: Native, id: string, allow: bool, name: string, t: Tree)
    requires SettledNode(native, id, allow, name, t)
    ensures Objection(native, allow, name, t) == None
    ensures Labelled(native, id, name, t) == t
  {
    var es := t.entries;
    assert WithMode(native, name, es) == es;
    SettledLabelsAreFixed(id, es);
  }

  lemma SettledLabelsAreFixed(id: string, es: seq<Entry>)
    requires SettledLabels(id, Lookup(es, "labels"))
    ensures WithLabels(id, es) == es
  {
  }

  lemma {:induction false} LabelAllSettles(native: Native, id: string, allow: bool, es: seq<Entry>)
    requires FirstObjection(native, allow, es) == None
    ensures Settled(native, id, allow, LabelAll(native, id, es))
    ensures |LabelAll(native, id, es)| == |es|
  {
    if es != [] {
      LabelledSettles(native, id, allow, es[0].key, es[0].value);
      LabelAllSettles(native, id, allow, es[1..]);
    }
  }

  lemma {:induction false} SettledIsFixed(native: Native, id: string, allow: bool, es: seq<Entry>)
    requires Settled(native, id, allow, es)
    ensures FirstObjection(native, allow, es) == None
    ensures LabelAll(native, id, es) == es
  {
    if es != [] {
      assert SettledNode(native, id, allow, es[0].key, es[0].value);
      SettledNodeIsFixed(native, id, allow, es[0].key, es[0].value);
      assert [es[0]] + es[1..] == es;
      forall i | 0 <= i < |es[1..]| ensures SettledNode(native, id, allow, es[1..][i].key, es[1..][i].value) {
        assert es[1..][i] == es[i + 1];
      }
      SettledIsFixed(native, id, allow, es[1..]);
    }
  }

  lemma ReboundLooks(e: Entry, f: Entry, key: string)
    requires ReboundNode(e, f) && key != "binds"
    ensures Lookup(f.value.entries, key) == Lookup(e.value.entries, key)
  {
    assert Lookup(Without(f.value.entries, {"binds"}), key) == Lookup(Without(e.value.entries, {"binds"}), key);
  }

  lemma ReboundStaysSettled(native: Native, id: string, allow: bool, es: seq<Entry>, fs: seq<Entry>)
    requires Settled(native, id, allow, es) && Rebound(es, fs)
    ensures Settled(native, id, allow, fs)
  {
    forall i | 0 <= i < |fs| ensures SettledNode(native, id, allow, fs[i].key, fs[i].value) {
      assert SettledNode(native, id, allow, es[i].key, es[i].value) && ReboundNode(es[i], fs[i]);
      ReboundLooks(es[i], fs[i], "network-mode");
      ReboundLooks(es[i], fs[i], "labels");
    }
  }

  lemma {:induction false} SettledHasNoBinds(native: Native, id: string, allow: bool, es: seq<Entry>)
    requires Settled(native, id, allow, es) && BindsFit(es)
    ensures Lookup(es, "binds") == None
  {
    if es != [] {
      assert SettledNode(native, id, allow, es[0].key, es[0].value);
      forall i | 0 <= i < |es[1..]| ensures SettledNode(native, id, allow, es[1..][i].key, es[1..][i].value) {
        assert es[1..][i] == es[i + 1];
      }
      if es[0].key != "binds" { SettledHasNoBinds(native, id, allow, es[1..]); }
    }
  }

  lemma {:induction false} AbsoluteRebinds(join: string -> string, es: seq<Entry>)
    requires forall i :: 0 <= i < |es| ==> es[i].value.Mapping?
    ensures Rebound(es, AbsoluteChildren(join, es))
  {
    if es != [] {
      var d := es[0].value.entries;
      match Lookup(d, "binds") {
        case Some(Sequence(items)) => PutKeepsOthers(d, "binds", Sequence(AbsoluteItems(join, items)), {"binds"});
        case _ =>
      }
      AbsoluteRebinds(join, es[1..]);
    }
  }

  lemma {:induction false} InjectRebinds(es: seq<Entry>, binds: map<string, seq<string>>)
    requires forall i :: 0 <= i < |es| ==> es[i].value.Mapping?
    ensures Rebound(es, Inject(es, binds))
  {
    if es != [] {
      var d := es[0].value.entries;
      if es[0].key in binds {
        PutKeepsOthers(d, "binds", Sequence(BindItems(d) + Strs(binds[es[0].key])), {"binds"});
      }
      InjectRebinds(es[1..], binds - {es[0].key});
    }
  }

  lemma {:induction false} InjectNothing(es: seq<Entry>)
    ensures Inject(es, map[]) == es
  {
    if es != [] {
      var none: map<string, seq<string>> := map[];
      assert none - {es[0].key} == none;
      InjectNothing(es[1..]);
    }
  }
}
