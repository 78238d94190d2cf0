/** A topology drafted again agrees with the one stored for the session (internal/server/plan.go). */
module DraftLaws {
  import opened Records
  import opened Yaml
  import opened Preparation
  import opened PreparationLaws
  import opened Rewriting
  import opened Drafts
  import Naming
  import Host
  import Reconcile

  // ---------- names of nodes do not depend on binds ----------

  lemma {:induction false} NamesLook(es: seq<Entry>, name: string)
    ensures name in Names(es) <==> Lookup(es, name).Some?
  {
    if es != [] {
      assert Names(es) == {es[0].key} + Names(es[1..]);
      NamesLook(es[1..], name);
    }
  }

  lemma ReboundNames(native: Native, es: seq<Entry>, fs: seq<Entry>)
    requires Rebound(es, fs)
    ensures Names(fs) == Names(es)
    ensures TestNames(native, fs) == TestNames(native, es)
    ensures IsolatedNames(native, fs) <= IsolatedNames(native, es)
  {
    hide Lookup, Without;
    forall i | 0 <= i < |es|
      ensures es[i].key == fs[i].key
      ensures Mode(native, es[i].key, Ensured(Some(es[i].value))) == Mode(native, fs[i].key, Ensured(Some(fs[i].value)))
    {
      assert ReboundNode(es[i], fs[i]);
      ReboundLooks(es[i], fs[i], "network-mode");
    }
  }

  lemma InjectedNames(native: Native, es: seq<Entry>, binds: map<string, seq<string>>)
    requires forall i :: 0 <= i < |es| ==> es[i].value.Mapping?
    ensures Names(Inject(es, binds)) == Names(es)
    ensures TestNames(native, Inject(es, binds)) == TestNames(native, es)
    ensures IsolatedNames(native, Inject(es, binds)) == IsolatedNames(native, es)
  {
    hide Inject, Names, TestNames, IsolatedNames;
    InjectRebinds(es, binds);
    ReboundNames(native, es, Inject(es, binds));
    var fs := Inject(es, binds);
    forall i | 0 <= i < |es| ensures ReboundNode(fs[i], es[i]) { assert ReboundNode(es[i], fs[i]); }
    ReboundNames(native, fs, es);
  }

  /** The topology of a preparation before its binds. */
  function Bare(doc: Tree, name: string, id: string, allow: bool, native: Native, base: Base): Result<seq<Entry>> {
    match Shell(doc, name)
    case Refused(why) => Refused(why)
    case Ok(root) => BasedForm(Ensured(Lookup(root, "topology")), id, allow, native, base)
  }

  function PreparedWith(doc: Tree, name: string, id: string, allow: bool, native: Native, base: Base,
                        binds: map<string, seq<string>>): Prepared
    requires Bare(doc, name, id, allow, native, base).Ok?
  {
    var bare := Bare(doc, name, id, allow, native, base).value;
    var topo := Put(bare, "nodes", Mapping(Inject(NodesOf(bare), binds)));
    Prepared(Naming.Sanitize(name), Put(Shell(doc, name).value, "topology", Mapping(topo)),
             Names(NodesOf(bare)), TestNames(native, NodesOf(bare)), IsolatedNames(native, NodesOf(bare)))
  }

  /** Binds only ever add to nodes that exist; whether and what else is prepared does not depend on them. */
  lemma BindsOnlyAdd(doc: Tree, name: string, id: string, allow: bool, native: Option<Native>, base: Base,
                     binds: map<string, seq<string>>)
    ensures var f := Form(doc, name, id, allow, native, base, binds);
      f.Ok? <==>
        && native.Some? && Bare(doc, name, id, allow, native.value, base).Ok?
        && binds.Keys <= Names(NodesOf(Bare(doc, name, id, allow, native.value, base).value))
    ensures var f := Form(doc, name, id, allow, native, base, binds);
      f.Ok? ==> f.value == PreparedWith(doc, name, id, allow, native.value, base, binds)
  {
    hide Lookup, Put, Inject, Shell, BasedForm, Names, TestNames, IsolatedNames, Naming.Sanitize;
    if native.Some? && Bare(doc, name, id, allow, native.value, base).Ok? {
      var topo := Ensured(Lookup(Shell(doc, name).value, "topology"));
      var bare := Bare(doc, name, id, allow, native.value, base).value;
      BasedSettles(topo, id, allow, native.value, base, bare);
      InjectedNames(native.value, NodesOf(bare), binds);
      forall n ensures n in Names(NodesOf(bare)) <==> Lookup(NodesOf(bare), n).Some? { NamesLook(NodesOf(bare), n); }
    }
  }

  // ---------- the session as created ----------

  /** The binds that a request asks for, as they are written: one for each disk, and then one for boot data. */
  lemma BindsAreSpelled(layout: Layout, n: string, q: Request)
    requires BootFits(q)
    ensures |RequestBinds(layout, n, q)| == |q.disks| + (if q.data == "" then 0 else 1)
    ensures forall i :: 0 <= i < |q.disks| ==>
      var name := q.disks[i].name;
      && Planned(layout, n, q.disks)[i] == Disk(name, layout.disk(n, name), q.disks[i].sizeBytes)
      && RequestBinds(layout, n, q)[i] == layout.disk(n, name) + ":/labcontainers-disks/" + name + ".raw"
    ensures q.data != "" ==>
      RequestBinds(layout, n, q)[|q.disks|] == layout.boot(n) + ":" + (
        if q.format == "cloud-config" then "/extra-userdata.yaml"
        else if q.format == "ignition" then "/labcontainers-bootstrap/ignition.json"
        else "/labcontainers-bootstrap/userdata.ps1") + ":ro"
  {
    PlannedAre(layout, n, q.disks);
    DisksAreSpelled(Planned(layout, n, q.disks));
  }

  lemma {:induction false} PlannedAre(layout: Layout, n: string, disks: seq<DiskRequest>)
    ensures forall i :: 0 <= i < |disks| ==>
      Planned(layout, n, disks)[i] == Disk(disks[i].name, layout.disk(n, disks[i].name), disks[i].sizeBytes)
  {
    if disks != [] { PlannedAre(layout, n, disks[..|disks| - 1]); }
  }

  lemma {:induction false} DisksAreSpelled(disks: seq<Disk>)
    ensures forall i :: 0 <= i < |disks| ==> DiskBinds(disks)[i] == disks[i].path + ":/labcontainers-disks/" + disks[i].name + ".raw"
  {
    if disks != [] { DisksAreSpelled(disks[..|disks| - 1]); }
  }

  /** A session created from this request, and the topology stored for it. */
  ghost predicate CreatedFrom(layout: Layout, qs: map<string, Request>, doc: Tree, name: string, id: string,
                              allow: bool,
                              native: Option<Native>, base: Base, p: Prepared) {
    && (forall n :: n in qs ==> BootFits(qs[n]))
    && (forall n :: layout.boot(n) != "")
    && Form(doc, name, id, allow, native, base, CreatedBinds(layout, qs)) == Ok(p)
    && qs.Keys <= p.nodes
  }

  /** Node `n` has, on record and on disk, what the request asked for. */
  ghost predicate AsAsked(layout: Layout, n: string, q: Request, node: Node, before: Host.State, after: Host.State) {
    && node.control == (if q.control == "" then "container" else q.control)
    && |node.disks| == |q.disks|
    && (forall i :: 0 <= i < |q.disks| ==>
          var name := q.disks[i].name;
          && node.disks[i] == Disk(name, layout.disk(n, name), q.disks[i].sizeBytes)
          && before.wipes[Host.DiskId(n, name)] < after.wipes[Host.DiskId(n, name)])
    && (q.data == "" ==> node.bootstrapFormat == "" && node.bootstrapPath == "")
    && (q.data != "" ==>
          && node.bootstrapFormat == q.format && node.bootstrapPath == layout.boot(n)
          && n in after.boots && after.boots[n] == q.data)
  }

  /** A created session has what was asked for, node by node. */
  lemma CreatedAsAsked(layout: Layout, qs: map<string, Request>, names: set<string>, s: Record, before: Host.State,
                       after: Host.State,
                       state: string)
    requires qs.Keys <= names && Reconcile.Registered(s, names, Extend(layout, qs), state)
    requires Reconcile.LaidOut(before, after, Extend(layout, qs))
    ensures forall n :: n in qs ==> AsAsked(layout, n, qs[n], s.nodes[n], before, after)
  {
    hide AsAsked;
    forall n | n in qs ensures AsAsked(layout, n, qs[n], s.nodes[n], before, after) {
      CreatedNode(layout, qs, names, s, before, after, state, n);
    }
  }

  lemma CreatedNode(layout: Layout, qs: map<string, Request>, names: set<string>, s: Record, before: Host.State,
                    after: Host.State,
                    state: string, n: string)
    requires qs.Keys <= names && n in qs && Reconcile.Registered(s, names, Extend(layout, qs), state)
    requires Reconcile.LaidOut(before, after, Extend(layout, qs))
    ensures AsAsked(layout, n, qs[n], s.nodes[n], before, after)
  {
    hide Planned;
    PlannedAre(layout, n, qs[n].disks);
    assert Reconcile.FreshDisks(before.wipes, after.wipes, n, Extend(layout, qs)[n].disks);
  }

  lemma NewNodeBinds(layout: Layout, qs: map<string, Request>, n: string)
    requires n in qs ==> BootFits(qs[n])
    requires layout.boot(n) != ""
    ensures RecordBinds(NewNode(Extend(layout, qs), n)) == Some(if n in qs then RequestBinds(layout, n, qs[n]) else [])
  {
    if n in qs {
      var d := DiskBinds(Planned(layout, n, qs[n].disks));
      assert d + [] == d;
    }
  }

  /** The binds rebuilt from the record are those planned from the request: same nodes, same lists, same order. */
  lemma RecordAgrees(layout: Layout, qs: map<string, Request>, names: set<string>)
    requires forall n :: n in qs ==> BootFits(qs[n])
    requires forall n :: layout.boot(n) != ""
    requires qs.Keys <= names
    ensures FormatsKnown(NewNodes(Extend(layout, qs), names), names)
    ensures DraftBinds(NewNodes(Extend(layout, qs), names), names) == CreatedBinds(layout, qs)
  {
    hide RecordBinds, RequestBinds, NewNode, BootFits;
    forall n | n in names
      ensures RecordBinds(NewNode(Extend(layout, qs), n)) == Some(if n in qs then RequestBinds(layout, n, qs[n]) else [])
    {
      NewNodeBinds(layout, qs, n);
    }
  }

  /**
   Drafting a session's original topology source again yields the stored topology exactly when cutting the
   session name to length left no separator at its end.
   */
  lemma RedraftIff(layout: Layout, qs: map<string, Request>, doc: Tree, name: string, id: string, allow: bool,
                   native: Option<Native>, base: Base, p: Prepared)
    requires CreatedFrom(layout, qs, doc, name, id, allow, native, base, p)
    ensures DraftForm(p.name, id, allow, NewNodes(Extend(layout, qs), p.nodes), doc, native, base) == Drafted(p)
      <==> Naming.CutIsClean(name)
  {
    hide Lookup, Put, Inject, Shell, BasedForm, Bare, Names, TestNames, IsolatedNames, Naming.Sanitize, Naming.CutIsClean,
      NewNodes, DraftBinds, FormatsKnown, BootFits, CreatedBinds;
    RecordAgrees(layout, qs, p.nodes);
    DraftFromLab(doc, name, id, allow, native, base, CreatedBinds(layout, qs), p, NewNodes(Extend(layout, qs), p.nodes), p.nodes);
    BindsOnlyAdd(doc, name, id, allow, native, base, CreatedBinds(layout, qs));
  }

  /** Drafting under the session's lab name gives the lab that its own preparation would give, or another name. */
  lemma DraftFromLab(doc: Tree, name: string, id: string, allow: bool, native: Option<Native>, base: Base,
                     binds: map<string, seq<string>>, p: Prepared, nodes: map<string, Node>, names: set<string>)
    requires Form(doc, name, id, allow, native, base, binds) == Ok(p) && names == p.nodes
    requires FormatsKnown(nodes, names)
    ensures DraftBinds(nodes, names).Keys <= names
    ensures var d := DraftForm(p.name, id, allow, nodes, doc, native, base);
      if Naming.CutIsClean(name)
      then d == Drafted(PreparedWith(doc, name, id, allow, native.value, base, DraftBinds(nodes, names)))
      else d.Drafted? ==> d.prepared.name != p.name
  {
    hide Lookup, Put, Inject, Shell, BasedForm, Names, TestNames, IsolatedNames, Naming.Sanitize, Naming.CutIsClean,
      Form, Bare, FormatsKnown;
    BindsOnlyAdd(doc, name, id, allow, native, base, binds);
    Naming.SanitizeTwiceIff(name);
    if Naming.CutIsClean(name) {
      SameLab(doc, name, p.name, id, allow, native, base, map[]);
      SameLab(doc, name, p.name, id, allow, native, base, DraftBinds(nodes, names));
      BindsOnlyAdd(doc, name, id, allow, native, base, map[]);
      BindsOnlyAdd(doc, name, id, allow, native, base, DraftBinds(nodes, names));
    } else {
      var d := DraftForm(p.name, id, allow, nodes, doc, native, base);
      BindsOnlyAdd(doc, p.name, id, allow, native, base, map[]);
      if d.Drafted? {
        var first := Form(doc, p.name, id, allow, native, base, map[]).value;
        BindsOnlyAdd(doc, p.name, id, allow, native, base, DraftBinds(nodes, first.nodes));
      }
    }
  }

  lemma SameLab(doc: Tree, a: string, b: string, id: string, allow: bool, native: Option<Native>, base: Base,
                binds: map<string, seq<string>>)
    requires Naming.Sanitize(a) == Naming.Sanitize(b)
    ensures Form(doc, a, id, allow, native, base, binds) == Form(doc, b, id, allow, native, base, binds)
  {
    hide Lookup, Put, TopologyForm, Names, TestNames, IsolatedNames, Naming.Sanitize;
  }

  // ---------- after a replacement that brought the first boot data ----------

  lemma {:induction false} PutPut(es: seq<Entry>, key: string, a: Tree, b: Tree)
    ensures Put(Put(es, key, a), key, b) == Put(es, key, b)
  {
    if es != [] && es[0].key != key {
      assert Put(es, key, a)[1..] == Put(es[1..], key, a);
      PutPut(es[1..], key, a, b);
    }
  }

  function Listed(binds: map<string, seq<string>>, n: string): seq<string> {
    if n in binds then binds[n] else []
  }

  lemma StrsAppend(a: seq<string>, b: string)
    ensures Strs(a + [b]) == Strs(a) + Strs([b])
  {
  }

  lemma AppendMore(es: seq<Entry>, binds: seq<string>, bind: string)
    ensures AppendBinds(AppendBinds(es, binds), [bind]) == AppendBinds(es, binds + [bind])
  {
    hide Lookup, Put;
    StrsAppend(binds, bind);
    PutPut(es, "binds", Sequence(BindItems(es) + Strs(binds)), Sequence(BindItems(es) + Strs(binds) + Strs([bind])));
    assert BindItems(es) + Strs(binds) + Strs([bind]) == BindItems(es) + Strs(binds + [bind]);
  }

  /** Injecting one more bind for a node is appending it to the node that injection made. */
  lemma {:induction false} InjectMore(es: seq<Entry>, binds: map<string, seq<string>>, n: string, bind: string)
    requires Lookup(es, n).Some? && forall i :: 0 <= i < |es| ==> es[i].value.Mapping?
    ensures var fs := Inject(es, binds);
      && Lookup(fs, n).Some? && Lookup(fs, n).value.Mapping?
      && Put(fs, n, Mapping(AppendBinds(Lookup(fs, n).value.entries, [bind])))
           == Inject(es, binds[n := Listed(binds, n) + [bind]])
  {
    hide AppendBinds;
    var e, more := es[0], binds[n := Listed(binds, n) + [bind]];
    assert Inject(es, binds)[1..] == Inject(es[1..], binds - {e.key});
    if e.key == n {
      assert more - {n} == binds - {n};
      if n in binds {
        AppendMore(e.value.entries, binds[n], bind);
      } else {
        assert [] + [bind] == [bind];
      }
    } else {
      InjectMore(es[1..], binds - {e.key}, n, bind);
      assert more - {e.key} == (binds - {e.key})[n := Listed(binds - {e.key}, n) + [bind]];
    }
  }

  /** The node of that name in a prepared document. */
  function NodeIn(root: seq<Entry>, n: string): seq<Entry> {
    Ensured(Lookup(NodesOf(Ensured(Lookup(root, "topology"))), n))
  }

  predicate HasNode(root: seq<Entry>, n: string) {
    var o := Lookup(NodesOf(Ensured(Lookup(root, "topology"))), n);
    o.Some? && o.value.Mapping?
  }

  function WithBoot(layout: Layout, node: Node, n: string, format: string): Node {
    node.(bootstrapFormat := format, bootstrapPath := layout.boot(n))
  }

  lemma BootIsListed(layout: Layout, qs: map<string, Request>, names: set<string>, n: string, format: string,
                     bind: string)
    requires forall m :: m in qs ==> BootFits(qs[m])
    requires forall m :: layout.boot(m) != ""
    requires qs.Keys <= names && n in names && NewNode(Extend(layout, qs), n).bootstrapFormat == ""
    requires BootBinds(layout.boot(n), format) == [bind]
    ensures var c, nodes := CreatedBinds(layout, qs), NewNodes(Extend(layout, qs), names);
      var after := nodes[n := WithBoot(layout, nodes[n], n, format)];
      && FormatsKnown(after, names)
      && DraftBinds(after, names) == c[n := Listed(c, n) + [bind]]
  {
    hide RecordBinds, RequestBinds, NewNode, BootFits, BootBinds, Extend, WithBoot;
    RecordAgrees(layout, qs, names);
    NewNodeBinds(layout, qs, n);
    BootFormat(layout, qs, n);
    BootComesLast(layout, NewNode(Extend(layout, qs), n), n, format, bind);
    var c, nodes := CreatedBinds(layout, qs), NewNodes(Extend(layout, qs), names);
    var after := nodes[n := WithBoot(layout, nodes[n], n, format)];
    assert BindsOrNone(after[n]) == Listed(c, n) + [bind];
    forall m | m in names && m != n ensures RecordBinds(after[m]).Some? && BindsOrNone(after[m]) == BindsOrNone(nodes[m]) {
      NewNodeBinds(layout, qs, m);
    }
    var d := DraftBinds(nodes, names);
    forall m ensures m in DraftBinds(after, names) <==> m in d || m == n { }
  }

  lemma BootFormat(layout: Layout, qs: map<string, Request>, n: string)
    requires n in qs ==> BootFits(qs[n])
    requires NewNode(Extend(layout, qs), n).bootstrapFormat == ""
    ensures NewNode(Extend(layout, qs), n).bootstrapPath == ""
  {
  }

  lemma BootComesLast(layout: Layout, node: Node, n: string, format: string, bind: string)
    requires node.bootstrapPath == "" && layout.boot(n) != "" && BootBinds(layout.boot(n), format) == [bind]
    ensures RecordBinds(node) == Some(DiskBinds(node.disks))
    ensures RecordBinds(WithBoot(layout, node, n, format)) == Some(DiskBinds(node.disks) + [bind])
  {
  }

  /** Adding a bind to one node of a prepared document, as one preparation with that bind listed last. */
  lemma BoundIsInjected(doc: Tree, name: string, id: string, allow: bool, native: Native, base: Base,
                        binds: map<string, seq<string>>, n: string, bind: string)
    requires Bare(doc, name, id, allow, native, base).Ok?
    requires n in Names(NodesOf(Bare(doc, name, id, allow, native, base).value))
    ensures var p := PreparedWith(doc, name, id, allow, native, base, binds);
      var q := PreparedWith(doc, name, id, allow, native, base, binds[n := Listed(binds, n) + [bind]]);
      && HasNode(p.root, n) && BoundForm(p.root, n, bind).Ok?
      && q == p.(root := q.root)
      && (BoundForm(p.root, n, bind) == Ok(q.root) <==> !HasBind(BindItems(NodeIn(p.root, n)), bind))
      && (BoundForm(p.root, n, bind) == Ok(p.root) <==> HasBind(BindItems(NodeIn(p.root, n)), bind))
  {
    hide Lookup, Put, Inject, Shell, BasedForm, Names, TestNames, IsolatedNames, Naming.Sanitize, Bound, HasBind;
    var root := Shell(doc, name).value;
    var bare := Bare(doc, name, id, allow, native, base).value;
    BasedSettles(Ensured(Lookup(root, "topology")), id, allow, native, base, bare);
    var es := NodesOf(bare);
    NamesLook(es, n);
    InjectMore(es, binds, n, bind);
    var fs := Inject(es, binds);
    var v := Lookup(fs, n).value.entries;
    NestedBound(root, bare, fs, n, bind, Mapping(AppendBinds(v, [bind])));
    BoundOrAppended(v, bind);
  }

  /** Setting a node deep inside a document that was itself just assembled. */
  lemma NestedBound(root: seq<Entry>, bare: seq<Entry>, fs: seq<Entry>, n: string, bind: string, more: Tree)
    requires Lookup(fs, n).Some? && Lookup(fs, n).value.Mapping?
    ensures var p := Put(root, "topology", Mapping(Put(bare, "nodes", Mapping(fs))));
      var q := Put(root, "topology", Mapping(Put(bare, "nodes", Mapping(Put(fs, n, more)))));
      var v := Mapping(Bound(Lookup(fs, n).value.entries, bind));
      && NodeIn(p, n) == Lookup(fs, n).value.entries
      && HasNode(p, n) && BoundForm(p, n, bind).Ok?
      && (BoundForm(p, n, bind) == Ok(q) <==> v == more)
      && (BoundForm(p, n, bind) == Ok(p) <==> v == Lookup(fs, n).value)
  {
    hide Lookup, Put, Bound;
    var topo := Put(bare, "nodes", Mapping(fs));
    var v := Mapping(Bound(Lookup(fs, n).value.entries, bind));
    var out := Put(fs, n, v);
    PutPut(bare, "nodes", Mapping(fs), Mapping(out));
    PutPut(root, "topology", Mapping(topo), Mapping(Put(bare, "nodes", Mapping(out))));
    assert BoundForm(Put(root, "topology", Mapping(topo)), n, bind)
      == Ok(Put(root, "topology", Mapping(Put(bare, "nodes", Mapping(out)))));
    assert Lookup(out, n) == Some(v) && Lookup(Put(fs, n, more), n) == Some(more);
    NestedIsInjective(root, bare, out, Put(fs, n, more));
    NestedIsInjective(root, bare, out, fs);
  }

  lemma NestedIsInjective(root: seq<Entry>, bare: seq<Entry>, fs: seq<Entry>, gs: seq<Entry>)
    ensures (Put(root, "topology", Mapping(Put(bare, "nodes", Mapping(fs))))
          == Put(root, "topology", Mapping(Put(bare, "nodes", Mapping(gs))))) <==> fs == gs
  {
    hide Lookup, Put;
    var p := Put(root, "topology", Mapping(Put(bare, "nodes", Mapping(fs))));
    var q := Put(root, "topology", Mapping(Put(bare, "nodes", Mapping(gs))));
    assert NodesOf(Ensured(Lookup(p, "topology"))) == fs && NodesOf(Ensured(Lookup(q, "topology"))) == gs;
  }

  lemma BoundOrAppended(es: seq<Entry>, bind: string)
    ensures Bound(es, bind) == AppendBinds(es, [bind]) <==> !HasBind(BindItems(es), bind)
    ensures Bound(es, bind) == es <==> HasBind(BindItems(es), bind)
  {
    hide Lookup, Put;
    var items := BindItems(es);
    assert BindItems(AppendBinds(es, [bind])) == items + Strs([bind]);
    assert |items + Strs([bind])| == |items| + 1;
  }

  /**
   After a replacement that gave a node its first boot data, drafting the original source again yields the stored
   topology exactly when the name was cut clean and the node did not list that very bind already.
   */
  lemma RedraftAfterReplaceIff(layout: Layout, qs: map<string, Request>, doc: Tree, name: string, id: string,
                               allow: bool,
                               native: Option<Native>, base: Base, p: Prepared, n: string, format: string, bind: string)
    requires CreatedFrom(layout, qs, doc, name, id, allow, native, base, p)
    requires n in p.nodes && NewNode(Extend(layout, qs), n).bootstrapFormat == ""
    requires BootBinds(layout.boot(n), format) == [bind]
    ensures var nodes := NewNodes(Extend(layout, qs), p.nodes);
      var stored := BoundForm(p.root, n, bind);
      && stored.Ok?
      && (DraftForm(p.name, id, allow, nodes[n := WithBoot(layout, nodes[n], n, format)], doc, native, base)
            == Drafted(p.(root := stored.value))
          <==> Naming.CutIsClean(name) && !HasBind(BindItems(NodeIn(p.root, n)), bind))
  {
    hide Lookup, Put, Inject, Shell, BasedForm, Bare, Names, TestNames, IsolatedNames, Naming.Sanitize, Naming.CutIsClean,
      NewNode, NewNodes, DraftBinds, FormatsKnown, BootFits, CreatedBinds, BoundForm, HasBind, BootBinds, NodeIn, PreparedWith,
      Form, DraftForm;
    var c, nodes := CreatedBinds(layout, qs), NewNodes(Extend(layout, qs), p.nodes);
    NewNodesAre(layout, qs, p.nodes, n);
    var after := nodes[n := WithBoot(layout, nodes[n], n, format)];
    BootIsListed(layout, qs, p.nodes, n, format, bind);
    BindsOnlyAdd(doc, name, id, allow, native, base, c);
    PreparedNodes(doc, name, id, allow, native.value, base, c);
    BoundIsInjected(doc, name, id, allow, native.value, base, c, n, bind);
    DraftFromLab(doc, name, id, allow, native, base, c, p, after, p.nodes);
  }

  lemma NewNodesAre(layout: Layout, qs: map<string, Request>, names: set<string>, n: string)
    requires n in names
    ensures n in NewNodes(Extend(layout, qs), names) && NewNodes(Extend(layout, qs), names)[n] == NewNode(Extend(layout, qs), n)
  {
  }

  lemma PreparedNodes(doc: Tree, name: string, id: string, allow: bool, native: Native, base: Base,
                      binds: map<string, seq<string>>)
    requires Bare(doc, name, id, allow, native, base).Ok?
    ensures PreparedWith(doc, name, id, allow, native, base, binds).nodes
      == Names(NodesOf(Bare(doc, name, id, allow, native, base).value))
  {
  }

  /**
   A replacement that wrote the bind but failed before its record was saved leaves a draft that no longer agrees
   with the stored topology, unless the bind was there before; doing it again changes the document no further.
   */
  lemma AbandonedReplaceIff(layout: Layout, qs: map<string, Request>, doc: Tree, name: string, id: string, allow: bool,
                            native: Option<Native>, base: Base, p: Prepared, n: string, bind: string)
    requires CreatedFrom(layout, qs, doc, name, id, allow, native, base, p) && Naming.CutIsClean(name)
    requires n in p.nodes
    ensures var stored := BoundForm(p.root, n, bind);
      && stored.Ok? && BoundForm(stored.value, n, bind) == stored
      && (DraftForm(p.name, id, allow, NewNodes(Extend(layout, qs), p.nodes), doc, native, base)
            == Drafted(p.(root := stored.value))
          <==> HasBind(BindItems(NodeIn(p.root, n)), bind))
  {
    hide Lookup, Put, Inject, Shell, BasedForm, Bare, Names, TestNames, IsolatedNames, Naming.Sanitize, Naming.CutIsClean,
      NewNodes, BootFits, CreatedBinds, BoundForm, HasBind, NodeIn, HasNode, PreparedWith, Form, DraftForm;
    var c := CreatedBinds(layout, qs);
    RedraftIff(layout, qs, doc, name, id, allow, native, base, p);
    BindsOnlyAdd(doc, name, id, allow, native, base, c);
    PreparedNodes(doc, name, id, allow, native.value, base, c);
    BoundIsInjected(doc, name, id, allow, native.value, base, c, n, bind);
    BoundTwice(p.root, n, bind);
  }

  /**
   Adding a bind appends it to the node's list unless an item there reads the same; the rest of the node, the other
   nodes and the rest of the document stay.
   */
  lemma BoundAppends(root: seq<Entry>, n: string, bind: string)
    requires HasNode(root, n)
    ensures BoundForm(root, n, bind).Ok?
    ensures var out, items := BoundForm(root, n, bind).value, BindItems(NodeIn(root, n));
      && HasNode(out, n)
      && BindItems(NodeIn(out, n)) == (if exists i :: 0 <= i < |items| && Text(items[i]) == bind then items else items + [Str(bind)])
      && Without(NodeIn(out, n), {"binds"}) == Without(NodeIn(root, n), {"binds"})
      && (forall m :: m != n ==> NodeIn(out, m) == NodeIn(root, m))
      && Without(out, {"topology"}) == Without(root, {"topology"})
      && Without(Ensured(Lookup(out, "topology")), {"nodes"}) == Without(Ensured(Lookup(root, "topology")), {"nodes"})
  {
    hide Lookup, Put, Without;
    var topo := Ensured(Lookup(root, "topology"));
    var v := Lookup(NodesOf(topo), n).value.entries;
    var w := Bound(v, bind);
    var nodes := Put(NodesOf(topo), n, Mapping(w));
    assert BoundForm(root, n, bind) == Ok(Put(root, "topology", Mapping(Put(topo, "nodes", Mapping(nodes)))));
    PutKeepsOthers(root, "topology", Mapping(Put(topo, "nodes", Mapping(nodes))), {"topology"});
    PutKeepsOthers(topo, "nodes", Mapping(nodes), {"nodes"});
    NodeBoundAppends(v, bind);
  }

  lemma NodeBoundAppends(es: seq<Entry>, bind: string)
    ensures var items := BindItems(es);
      BindItems(Bound(es, bind)) == if exists i :: 0 <= i < |items| && Text(items[i]) == bind then items else items + [Str(bind)]
    ensures Without(Bound(es, bind), {"binds"}) == Without(es, {"binds"})
  {
    hide Lookup, Put, Without;
    PutKeepsOthers(es, "binds", Sequence(BindItems(es)), {"binds"});
    PutKeepsOthers(es, "binds", Sequence(BindItems(es) + Strs([bind])), {"binds"});
    assert Strs([bind]) == [Str(bind)];
  }

  /** Adding a bind twice adds it once. */
  lemma BoundTwice(root: seq<Entry>, n: string, bind: string)
    requires HasNode(root, n)
    ensures BoundForm(root, n, bind).Ok?
    ensures BoundForm(BoundForm(root, n, bind).value, n, bind) == BoundForm(root, n, bind)
  {
    hide Lookup, Put;
    var topo := Ensured(Lookup(root, "topology"));
    var es := Lookup(NodesOf(topo), n).value.entries;
    var items := BindItems(Bound(es, bind));
    if !HasBind(BindItems(es), bind) { assert Text(items[|items| - 1]) == bind; }
    BoundOrAppended(Bound(es, bind), bind);
  }

  // ---------- what a draft lists ----------

  /**
   In a drafted topology each node keeps its own binds and then lists, if it is the first of its name and the record has
   it, exactly the binds of its record.
   */
  lemma DraftListsRecord(lab: string, id: string, allow: bool, nodes: map<string, Node>, doc: Tree,
                         native: Option<Native>,
                         base: Base, p: Prepared, i: nat)
    requires DraftForm(lab, id, allow, nodes, doc, native, base) == Drafted(p)
    ensures doc.Mapping?
    ensures var source, out := NodesOf(Ensured(Lookup(doc.entries, "topology"))), NodesOf(Ensured(Lookup(p.root, "topology")));
      |out| == |source| && (i < |source| ==>
        var n := source[i].key;
        var listed := n in nodes && forall j :: 0 <= j < i ==> source[j].key != n;
        && out[i].key == n && out[i].value.Mapping? && AsMapping(source[i].value).Mapping?
        && (listed ==> RecordBinds(nodes[n]).Some?)
        && BindItems(out[i].value.entries)
             == BasedItems(base, BindItems(AsMapping(source[i].value).entries)) + Strs(if listed then RecordBinds(nodes[n]).value else []))
  {
    hide Form, Bare, RecordBinds, Lookup, Strs, BasedItems, BindItems, PreparedWith;
    var first := Form(doc, lab, id, allow, native, base, map[]).value;
    var binds := DraftBinds(nodes, first.nodes);
    BindsOnlyAdd(doc, lab, id, allow, native, base, map[]);
    BindsOnlyAdd(doc, lab, id, allow, native, base, binds);
    PreparationIsLossless(doc, lab, id, allow, native, base, binds, p);
    PreparedIsOwned(doc, lab, id, allow, native, base, binds, p);
    var source, out := NodesOf(Ensured(Lookup(doc.entries, "topology"))), NodesOf(Ensured(Lookup(p.root, "topology")));
    if i < |source| {
      assert NodeKept(native.value, id, base, Extra(source, binds, i), source[i], out[i]);
      assert out[i] in out && out[i].key in Names(out);
      PreparedNodes(doc, lab, id, allow, native.value, base, map[]);
      PreparedNodes(doc, lab, id, allow, native.value, base, binds);
      assert source[i].key in first.nodes;
    }
  }

  // ---------- after a reconciliation ----------

  lemma CarriedBinds(was: map<string, Node>, now: Node, n: string, changes: map<string, Reconcile.Change>)
    requires Reconcile.Carried(was, now, n, changes)
    ensures RecordBinds(now) == if n in was then RecordBinds(was[n]) else Some([])
  {
    hide BootBinds, Target;
  }

  /** A reconciliation that converged keeps the binds of the retained nodes and gives new nodes none. */
  lemma ConvergedKeepsBinds(r: Record, s: Record, names: set<string>, changes: map<string, Reconcile.Change>)
    requires Reconcile.ConvergedTo(r, s, names, changes)
    ensures forall n :: n in names ==> RecordBinds(s.nodes[n]) == if n in r.nodes then RecordBinds(r.nodes[n]) else Some([])
    ensures FormatsKnown(s.nodes, names) == FormatsKnown(r.nodes, names)
    ensures DraftBinds(s.nodes, names) == DraftBinds(r.nodes, names)
  {
    hide RecordBinds, Reconcile.Carried;
    forall n | n in names ensures RecordBinds(s.nodes[n]) == if n in r.nodes then RecordBinds(r.nodes[n]) else Some([]) {
      CarriedBinds(r.nodes, s.nodes[n], n, changes);
    }
  }

  /** After a draft was applied and converged, drafting its source again gives the same draft, and so the stored topology. */
  lemma RedraftAfterApply(lab: string, id: string, allow: bool, r: Record, s: Record, changes: map<string,
                          Reconcile.Change>,
                          doc: Tree, native: Option<Native>, base: Base, p: Prepared)
    requires DraftForm(lab, id, allow, r.nodes, doc, native, base) == Drafted(p)
    requires Reconcile.ConvergedTo(r, s, p.nodes, changes)
    ensures DraftForm(lab, id, allow, s.nodes, doc, native, base) == Drafted(p)
  {
    hide Form, Bare, FormatsKnown, DraftBinds, Names, Reconcile.ConvergedTo;
    var first := Form(doc, lab, id, allow, native, base, map[]).value;
    BindsOnlyAdd(doc, lab, id, allow, native, base, map[]);
    BindsOnlyAdd(doc, lab, id, allow, native, base, DraftBinds(r.nodes, first.nodes));
    ConvergedKeepsBinds(r, s, p.nodes, changes);
  }

  // ---------- sessions for which the draft disagrees ----------

  /** A topology of one node, with these settings of its own. */
  function OneNode(node: seq<Entry>): Tree {
    Mapping([Entry("topology", Mapping([Entry("nodes", Mapping([Entry("n", Mapping(node))]))]))])
  }

  function Plain(): Native {
    Native(n => "linux", n => "none", n => Some(0), [])
  }

  lemma OneNodeBased(topo: seq<Entry>, nodes: seq<Entry>, node: seq<Entry>, id: string)
    requires nodes == [Entry("n", Mapping(node))] && NodesOf(topo) == nodes && Lookup(node, "network-mode") == None
    ensures var based := BasedForm(topo, id, false, Plain(), NoBase);
      based.Ok? && NodesOf(based.value) == [Entry("n", Labelled(Plain(), id, "n", Mapping(node)))]
  {
    hide Put, WithLabels, WithMode;
    assert |"linux"| == 5 && |"bridge"| == 6 && |"ovs-bridge"| == 10;
    assert Objection(Plain(), false, "n", Mapping(node)) == None;
    assert nodes[1..] == [] && FirstObjection(Plain(), false, nodes) == None;
    assert LabelAll(Plain(), id, nodes) == [Entry("n", Labelled(Plain(), id, "n", Mapping(node)))];
  }

  /** The smallest topology is prepared under any usable name. */
  lemma OneNodePrepares(node: seq<Entry>, name: string, id: string)
    requires Naming.Sanitize(name) != "" && Lookup(node, "network-mode") == None
    ensures var f := Form(OneNode(node), name, id, false, Some(Plain()), NoBase, map[]);
      f.Ok? && f.value.nodes == {"n"}
  {
    hide Naming.Sanitize, Form, BasedForm, Shell, Put, Labelled;
    var nodes := [Entry("n", Mapping(node))];
    var topo := [Entry("nodes", Mapping(nodes))];
    var es := [Entry("topology", Mapping(topo))];
    assert Lookup(es, "topology") == Some(Mapping(topo)) && Lookup(topo, "nodes") == Some(Mapping(nodes));
    assert Lookup(es, "mgmt") == None by { assert |"mgmt"| != |"topology"| && es[1..] == []; }
    OneNodeShell(node, name, es, topo);
    OneNodeBased(topo, nodes, node, id);
    BindsOnlyAdd(OneNode(node), name, id, false, Some(Plain()), NoBase, map[]);
  }

  lemma OneNodeShell(node: seq<Entry>, name: string, es: seq<Entry>, topo: seq<Entry>)
    requires OneNode(node) == Mapping(es) && Naming.Sanitize(name) != ""
    requires Lookup(es, "topology") == Some(Mapping(topo)) && Lookup(es, "mgmt") == None
    requires Lookup(topo, "nodes").Some? && Lookup(topo, "nodes").value.Mapping? && NodesOf(topo) != []
    ensures Shell(OneNode(node), name).Ok? && Lookup(Shell(OneNode(node), name).value, "topology") == Some(Mapping(topo))
  {
    hide Lookup, Put, Naming.Sanitize;
    assert |"name"| == |"mgmt"| == 4 && |"topology"| == 8 && "name"[0] != "mgmt"[0];
  }

  lemma OneNodeBinds(node: seq<Entry>, name: string, id: string, p: Prepared)
    requires Form(OneNode(node), name, id, false, Some(Plain()), NoBase, map[]) == Ok(p)
    ensures BindItems(NodeIn(p.root, "n")) == BindItems(node)
  {
    hide Form, Naming.Sanitize, TopologyKept, BindItems;
    var nodes := [Entry("n", Mapping(node))];
    var topo := [Entry("nodes", Mapping(nodes))];
    assert Lookup(topo, "nodes") == Some(Mapping(nodes));
    assert Lookup([Entry("topology", Mapping(topo))], "topology") == Some(Mapping(topo));
    PreparationIsLossless(OneNode(node), name, id, false, Some(Plain()), NoBase, map[], p);
    var out := NodesOf(Ensured(Lookup(p.root, "topology")));
    assert NodesOf(topo) == nodes && |out| == 1 && NodeKept(Plain(), id, NoBase, Extra(nodes, map[], 0), nodes[0], out[0]);
    assert Strs([]) == [];
    assert Lookup(out, "n") == Some(out[0].value);
  }

  /** The session of the examples: its files, and a node that can take disks and boot data. */
  function Files(): Layout { Layout((n, d) => "d", n => "b") }

  function Guest(): map<string, Request> { map["n" := Request(QGA, [], "", "")] }

  const BOOT_BIND := "b" + ":" + "/labcontainers-bootstrap/ignition.json" + ":ro"

  lemma GuestIsCreated(node: seq<Entry>, name: string) returns (p: Prepared)
    requires Naming.Sanitize(name) != "" && Lookup(node, "network-mode") == None
    ensures Form(OneNode(node), name, "id", false, Some(Plain()), NoBase, map[]) == Ok(p) && p.nodes == {"n"}
    ensures CreatedFrom(Files(), Guest(), OneNode(node), name, "id", false, Some(Plain()), NoBase, p)
    ensures NewNode(Extend(Files(), Guest()), "n").bootstrapFormat == ""
  {
    hide Form, Naming.Sanitize;
    OneNodePrepares(node, name, "id");
    assert RequestBinds(Files(), "n", Guest()["n"]) == [];
    assert CreatedBinds(Files(), Guest()) == map[];
    p := Form(OneNode(node), name, "id", false, Some(Plain()), NoBase, map[]).value;
  }

  lemma BootBindIs()
    ensures BootBinds(Files().boot("n"), "ignition") == [BOOT_BIND]
  {
    assert |"cloud-config"| == 12 && |"ignition"| == 8;
  }

  lemma LabIsClean()
    ensures Naming.Sanitize("lab") != "" && Naming.CutIsClean("lab")
  {
    Naming.CollapseKeepsSafe("lab");
    assert Naming.Uncut("lab") == "lab";
  }

  /** A session name that creation accepts and whose topology is renamed by the next draft. */
  lemma RenamedSessionExists() returns (name: string, p: Prepared)
    ensures |name| <= 63 && CreatedFrom(Files(), Guest(), OneNode([]), name, "id", false, Some(Plain()), NoBase, p)
    ensures DraftForm(p.name, "id", false, NewNodes(Extend(Files(), Guest()), p.nodes), OneNode([]), Some(Plain()), NoBase)
      != Drafted(p)
  {
    hide Form, DraftForm, NewNodes, Naming.Sanitize, Naming.Collapse, CreatedFrom;
    name := seq(47, i => 'a') + "-a";
    Naming.UncleanCutExists();
    SanitizedNotEmpty(name);
    p := GuestIsCreated([], name);
    RedraftIff(Files(), Guest(), OneNode([]), name, "id", false, Some(Plain()), NoBase, p);
  }

  lemma SanitizedNotEmpty(name: string)
    requires !Naming.CutIsClean(name)
    ensures Naming.Sanitize(name) != ""
  {
    hide Naming.Uncut;
  }

  /** A session whose replacement was abandoned after it wrote the bind: its draft is not the stored topology. */
  lemma AbandonedReplaceExists() returns (p: Prepared)
    ensures CreatedFrom(Files(), Guest(), OneNode([]), "lab", "id", false, Some(Plain()), NoBase, p) && "n" in p.nodes
    ensures BootBinds(Files().boot("n"), "ignition") == [BOOT_BIND] && BoundForm(p.root, "n", BOOT_BIND).Ok?
    ensures DraftForm(p.name, "id", false, NewNodes(Extend(Files(), Guest()), p.nodes), OneNode([]), Some(Plain()), NoBase)
      != Drafted(p.(root := BoundForm(p.root, "n", BOOT_BIND).value))
  {
    hide Form, DraftForm, NewNodes, Naming.Sanitize, Naming.CutIsClean, BoundForm, NodeIn, Extend, CreatedFrom, BootBinds;
    LabIsClean();
    p := GuestIsCreated([], "lab");
    BootBindIs();
    AbandonedReplaceIff(Files(), Guest(), OneNode([]), "lab", "id", false, Some(Plain()), NoBase, p, "n", BOOT_BIND);
    OneNodeBinds([], "lab", "id", p);
  }

  /**
   A session whose source already lists the bind of the boot data that a replacement brings: the stored topology keeps
   one such bind, and its draft has two. The path in such a bind is in the session's own directory.
   */
  lemma ListedBindExists() returns (p: Prepared)
    ensures var doc := OneNode([Entry("binds", Sequence([Str(BOOT_BIND)]))]);
      var nodes := NewNodes(Extend(Files(), Guest()), {"n"});
      && CreatedFrom(Files(), Guest(), doc, "lab", "id", false, Some(Plain()), NoBase, p) && p.nodes == {"n"}
      && Naming.CutIsClean("lab")
      && BoundForm(p.root, "n", BOOT_BIND).Ok?
      && DraftForm(p.name, "id", false, nodes["n" := WithBoot(Files(), nodes["n"], "n", "ignition")], doc, Some(Plain()), NoBase)
           != Drafted(p.(root := BoundForm(p.root, "n", BOOT_BIND).value))
  {
    hide Form, DraftForm, NewNode, Naming.Sanitize, Naming.CutIsClean, BoundForm, NodeIn, Extend, CreatedFrom, BootBinds;
    var node := [Entry("binds", Sequence([Str(BOOT_BIND)]))];
    LabIsClean();
    assert Lookup(node, "network-mode") == None by { assert |"binds"| != |"network-mode"| && node[1..] == []; }
    p := GuestIsCreated(node, "lab");
    BootBindIs();
    OneNodeBinds(node, "lab", "id", p);
    assert BindItems(node) == [Str(BOOT_BIND)] && Text([Str(BOOT_BIND)][0]) == BOOT_BIND;
    RedraftAfterReplaceIff(Files(), Guest(), OneNode(node), "lab", "id", false, Some(Plain()), NoBase, p, "n", "ignition",
                           BOOT_BIND);
  }

  // ---------- the draft without a source ----------

  /**
   Preparing the stored topology itself again, as a draft without a source does, also after one more bind was added to
   it: it stays as it is exactly when the name was cut clean.
   */
  lemma StoredAgainIff(doc: Tree, name: string, id: string, allow: bool, native: Option<Native>, base: Base,
                       binds: map<string, seq<string>>, p: Prepared, n: string, bind: string)
    requires Form(doc, name, id, allow, native, base, binds) == Ok(p) && n in p.nodes
    ensures BoundForm(p.root, n, bind).Ok?
    ensures var stored := BoundForm(p.root, n, bind).value;
      Form(Mapping(stored), p.name, id, allow, native, NoBase, map[]) == Ok(p.(root := stored)) <==> Naming.CutIsClean(name)
  {
    hide Lookup, Put, Inject, Shell, BasedForm, Bare, Names, TestNames, IsolatedNames, Naming.Sanitize, Naming.CutIsClean,
      Form, BoundForm, HasBind, NodeIn, HasNode, PreparedWith, BindItems;
    BindsOnlyAdd(doc, name, id, allow, native, base, binds);
    PreparedNodes(doc, name, id, allow, native.value, base, binds);
    BoundIsInjected(doc, name, id, allow, native.value, base, binds, n, bind);
    var more := binds[n := Listed(binds, n) + [bind]];
    BindsOnlyAdd(doc, name, id, allow, native, base, more);
    if HasBind(BindItems(NodeIn(p.root, n)), bind) {
      PreparingAgainIff(doc, name, id, allow, native, base, binds, p);
    } else {
      var q := PreparedWith(doc, name, id, allow, native.value, base, more);
      PreparingAgainIff(doc, name, id, allow, native, base, more, q);
    }
  }
}
