/**
 The binds that attach disks and boot data to nodes: planned from the request when a session is created, and
 rebuilt from the session's record when a topology is drafted again (internal/server/server.go and plan.go).
 */
module Drafts {
  import opened Records
  import opened Yaml
  import opened Preparation
  import opened Rewriting
  import Naming

  const MAX_DISK := 0x100_0000_0000

  datatype DiskRequest = DiskRequest(name: string, sizeBytes: nat)

  datatype Request = Request(control: string, disks: seq<DiskRequest>, format: string, data: string)

  function DiskBind(d: Disk): string { d.path + ":/labcontainers-disks/" + d.name + ".raw" }

  function DiskBinds(disks: seq<Disk>): (r: seq<string>)
    ensures |r| == |disks|
  {
    if disks == [] then [] else DiskBinds(disks[..|disks| - 1]) + [DiskBind(disks[|disks| - 1])]
  }

  function BootBinds(path: string, format: string): seq<string> {
    match Target(format)
    case Some(target) => [path + ":" + target + ":ro"]
    case None => []
  }

  // ---------- the request ----------

  predicate DiskFits(disks: seq<DiskRequest>, i: nat)
    requires i < |disks|
  {
    && disks[i].name != "" && Naming.AllSafe(disks[i].name)
    && 0 < disks[i].sizeBytes <= MAX_DISK
    && forall j :: 0 <= j < i ==> disks[j].name != disks[i].name
  }

  predicate DisksFit(q: Request) {
    && (q.disks != [] ==> q.control == QGA)
    && forall i :: 0 <= i < |q.disks| ==> DiskFits(q.disks, i)
  }

  predicate BootFits(q: Request) {
    q.data != "" ==> q.control == QGA && !Blank(q.data) && Target(q.format).Some?
  }

  function Planned(layout: Layout, n: string, disks: seq<DiskRequest>): (r: seq<Disk>)
    ensures |r| == |disks|
  {
    if disks == [] then []
    else
      var d := disks[|disks| - 1];
      Planned(layout, n, disks[..|disks| - 1]) + [Disk(d.name, layout.disk(n, d.name), d.sizeBytes)]
  }

  function RequestBinds(layout: Layout, n: string, q: Request): seq<string> {
    DiskBinds(Planned(layout, n, q.disks)) + (if q.data == "" then [] else BootBinds(layout.boot(n), q.format))
  }

  /** What CreateSession hands to the preparation: the nodes that get any bind, with their binds. */
  function CreatedBinds(layout: Layout, qs: map<string, Request>): map<string, seq<string>> {
    map n | n in qs && RequestBinds(layout, n, qs[n]) != [] :: RequestBinds(layout, n, qs[n])
  }

  /** What CreateSession plans for each node that the request mentions. */
  function Extend(layout: Layout, qs: map<string, Request>): map<string, Extension> {
    map n | n in qs ::
      var q := qs[n];
      Extension(q.control, Planned(layout, n, q.disks), if q.data == "" then "" else q.format,
                if q.data == "" then "" else layout.boot(n), q.data)
  }

  // ---------- the record ----------

  function RecordBinds(node: Node): Option<seq<string>> {
    if node.bootstrapPath == "" then Some(DiskBinds(node.disks))
    else match Target(node.bootstrapFormat)
      case None => None
      case Some(_) => Some(DiskBinds(node.disks) + BootBinds(node.bootstrapPath, node.bootstrapFormat))
  }

  function BindsOrNone(node: Node): seq<string> {
    match RecordBinds(node) case Some(bs) => bs case None => []
  }

  predicate FormatsKnown(nodes: map<string, Node>, names: set<string>) {
    forall n :: n in names && n in nodes ==> RecordBinds(nodes[n]).Some?
  }

  /** The binds of the nodes that the drafted topology retains. */
  function DraftBinds(nodes: map<string, Node>, names: set<string>): map<string, seq<string>> {
    map n | n in names && n in nodes && BindsOrNone(nodes[n]) != [] :: BindsOrNone(nodes[n])
  }

  datatype Draft = Drafted(prepared: Prepared) | NotPrepared(why: Refusal) | UnknownFormat

  /** prepareDraft with a topology source: prepared once for its nodes, then again with their binds. */
  function DraftForm(lab: string, id: string, allow: bool, nodes: map<string, Node>, doc: Tree,
                     native: Option<Native>, base: Base): Draft
  {
    match Form(doc, lab, id, allow, native, base, map[])
    case Refused(why) => NotPrepared(why)
    case Ok(first) =>
      if !FormatsKnown(nodes, first.nodes) then UnknownFormat
      else match Form(doc, lab, id, allow, native, base, DraftBinds(nodes, first.nodes))
        case Refused(why) => NotPrepared(why)
        case Ok(p) => Drafted(p)
  }

  // ---------- planning and drafting, as loops ----------

  method DiskPlan(layout: Layout, qs: map<string, Request>)
    returns (ok: bool, binds: map<string, seq<string>>, disks: map<string, seq<Disk>>)
    ensures ok <==> forall n :: n in qs ==> DisksFit(qs[n])
    ensures ok ==> disks == map n | n in qs && qs[n].disks != [] :: Planned(layout, n, qs[n].disks)
    ensures ok ==> binds == DiskPart(layout, qs)
  {
    hide DisksFit, Planned, DiskBinds;
    binds, disks := map[], map[];
    var rest := qs.Keys;
    while rest != {}
      invariant rest <= qs.Keys
      invariant forall n :: n in qs && n !in rest ==> DisksFit(qs[n])
      invariant forall n :: n in disks <==> n in qs && n !in rest && qs[n].disks != []
      invariant forall n :: n in disks ==> disks[n] == Planned(layout, n, qs[n].disks)
      invariant binds.Keys == disks.Keys && forall n :: n in disks ==> binds[n] == DiskBinds(disks[n])
      decreases rest
    {
      var n :| n in rest;
      rest := rest - {n};
      var fits, planned, bound := PlanDisks(layout, n, qs[n]);
      if !fits { return false, binds, disks; }
      if planned != [] { disks, binds := disks[n := planned], binds[n := bound]; }
    }
    ok := true;
  }

  method PlanDisks(layout: Layout, n: string, q: Request) returns (ok: bool, disks: seq<Disk>, binds: seq<string>)
    ensures ok <==> DisksFit(q)
    ensures ok ==> disks == Planned(layout, n, q.disks) && binds == DiskBinds(disks)
  {
    disks, binds := [], [];
    if q.disks != [] && q.control != QGA { return false, disks, binds; }
    var seen: set<string> := {};
    for i := 0 to |q.disks|
      invariant forall j :: 0 <= j < i ==> DiskFits(q.disks, j)
      invariant forall s :: s in seen <==> exists j :: 0 <= j < i && q.disks[j].name == s
      invariant disks == Planned(layout, n, q.disks[..i]) && binds == DiskBinds(disks)
    {
      var d := q.disks[i];
      if d.name == "" || !Naming.AllSafe(d.name) || d.name in seen || d.sizeBytes == 0 || d.sizeBytes > MAX_DISK {
        assert !DiskFits(q.disks, i);
        return false, disks, binds;
      }
      seen := seen + {d.name};
      var disk := Disk(d.name, layout.disk(n, d.name), d.sizeBytes);
      assert q.disks[..i + 1][..i] == q.disks[..i];
      assert (disks + [disk])[..|disks|] == disks;
      disks, binds := disks + [disk], binds + [DiskBind(disk)];
    }
    assert q.disks[..|q.disks|] == q.disks;
    ok := true;
  }

  /** The boot data that the request carries, bound after the disks. */
  method BootstrapPlan(layout: Layout, qs: map<string, Request>) returns (ok: bool, binds: map<string, seq<string>>)
    ensures ok <==> forall n :: n in qs ==> BootFits(qs[n])
    ensures ok ==> binds == BootPart(layout, qs)
  {
    binds := map[];
    var rest := qs.Keys;
    while rest != {}
      invariant rest <= qs.Keys
      invariant forall n :: n in qs && n !in rest ==> BootFits(qs[n])
      invariant binds == map n | n in qs && n !in rest && qs[n].data != "" :: BootBinds(layout.boot(n), qs[n].format)
      decreases rest
    {
      var n :| n in rest;
      rest := rest - {n};
      var q := qs[n];
      if q.data != "" {
        if q.control != QGA || Blank(q.data) { return false, binds; }
        var target := Target(q.format);
        if target.None? { return false, binds; }
        binds := binds[n := [layout.boot(n) + ":" + target.value + ":ro"]];
      }
    }
    ok := true;
  }

  method PlanBinds(layout: Layout, qs: map<string, Request>) returns (ok: bool, binds: map<string, seq<string>>)
    ensures ok <==> forall n :: n in qs ==> DisksFit(qs[n]) && BootFits(qs[n])
    ensures ok ==> binds == CreatedBinds(layout, qs)
  {
    hide DisksFit, BootFits, BootBinds, DiskBinds, Planned, Merged;
    var disks: map<string, seq<Disk>>;
    ok, binds, disks := DiskPlan(layout, qs);
    if !ok { return; }
    var boots: map<string, seq<string>>;
    ok, boots := BootstrapPlan(layout, qs);
    if !ok { return; }
    MergedBinds(layout, qs);
    binds := Merge(binds, boots);
  }

  /** Lists under the same name are joined, those of `a` first. */
  function Merged(a: map<string, seq<string>>, b: map<string, seq<string>>): map<string, seq<string>> {
    map n | n in a.Keys + b.Keys :: (if n in a then a[n] else []) + (if n in b then b[n] else [])
  }

  method Merge(a: map<string, seq<string>>, b: map<string, seq<string>>) returns (r: map<string, seq<string>>)
    ensures r == Merged(a, b)
  {
    r := a;
    var rest := b.Keys;
    assert b - rest == map[] && forall n :: n in a ==> a[n] + [] == a[n];
    while rest != {}
      invariant rest <= b.Keys && r == Merged(a, b - rest)
      decreases rest
    {
      var n :| n in rest;
      rest := rest - {n};
      r := r[n := (if n in r then r[n] else []) + b[n]];
    }
    assert b - {} == b;
  }

  function DiskPart(layout: Layout, qs: map<string, Request>): map<string, seq<string>> {
    map n | n in qs && qs[n].disks != [] :: DiskBinds(Planned(layout, n, qs[n].disks))
  }

  function BootPart(layout: Layout, qs: map<string, Request>): map<string, seq<string>> {
    map n | n in qs && qs[n].data != "" :: BootBinds(layout.boot(n), qs[n].format)
  }

  lemma MergedBinds(layout: Layout, qs: map<string, Request>)
    requires forall n :: n in qs ==> BootFits(qs[n])
    ensures Merged(DiskPart(layout, qs), BootPart(layout, qs)) == CreatedBinds(layout, qs)
  {
    hide DiskBinds, Planned, BootBinds, BootFits;
    var a, b, c := DiskPart(layout, qs), BootPart(layout, qs), CreatedBinds(layout, qs);
    forall n | n in qs
      ensures n in Merged(a, b) <==> n in c
      ensures n in c ==> Merged(a, b)[n] == c[n]
    {
      BootBindsExist(layout, n, qs[n]);
      var d := DiskBinds(Planned(layout, n, qs[n].disks));
      assert d + [] == d;
      if qs[n].disks == [] { assert d == []; }
    }
  }

  lemma BootBindsExist(layout: Layout, n: string, q: Request)
    ensures BootFits(q) && q.data != "" ==> |BootBinds(layout.boot(n), q.format)| == 1
    ensures q.disks == [] ==> DiskBinds(Planned(layout, n, q.disks)) == []
  {
  }

  method PrepareDraft(lab: string, id: string, allow: bool, nodes: map<string, Node>, source: Tree,
                      native: Option<Native>, base: Base) returns (res: Draft)
    ensures res == DraftForm(lab, id, allow, nodes, source, native, base)
  {
    hide Form, Planned, DiskBinds;
    var doc := new Document(source);
    var first := doc.PrepareWithOptions(lab, id, allow, native, base, map[]);
    if first.Refused? { return NotPrepared(first.why); }
    var binds: map<string, seq<string>> := map[];
    var names := first.value.nodes;
    var rest := names;
    while rest != {}
      invariant rest <= names
      invariant FormatsKnown(nodes, names - rest)
      invariant binds == DraftBinds(nodes, names - rest)
      decreases rest
    {
      var n :| n in rest;
      rest := rest - {n};
      if n in nodes {
        var known, bound := NodeBinds(nodes[n]);
        if !known { return UnknownFormat; }
        if bound != [] { binds := binds[n := bound]; }
      }
    }
    assert names - {} == names;
    var again := new Document(source);
    var last := again.PrepareWithOptions(lab, id, allow, native, base, binds);
    res := match last case Refused(why) => NotPrepared(why) case Ok(p) => Drafted(p);
  }

  method NodeBinds(node: Node) returns (known: bool, binds: seq<string>)
    ensures known <==> RecordBinds(node).Some?
    ensures known ==> binds == BindsOrNone(node)
  {
    known, binds := true, [];
    for i := 0 to |node.disks|
      invariant binds == DiskBinds(node.disks[..i])
    {
      assert node.disks[..i + 1][..i] == node.disks[..i];
      binds := binds + [DiskBind(node.disks[i])];
    }
    assert node.disks[..|node.disks|] == node.disks;
    if node.bootstrapPath != "" {
      var target := Target(node.bootstrapFormat);
      if target.None? { return false, binds; }
      binds := binds + [node.bootstrapPath + ":" + target.value + ":ro"];
    }
  }
}
