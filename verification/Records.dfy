/** The persisted session record and the values it holds (internal/session/store.go). */
module Records {

  datatype Option<+T> = None | Some(value: T)

  const NETEM := "netem"
  const LINK_STATE := "link-state"
  const CONTAINER := "container"
  const QGA := "qga"

  datatype Disk = Disk(name: string, path: string, sizeBytes: nat)

  datatype Node = Node(control: string, state: string, disks: seq<Disk>,
                       bootstrapFormat: string, bootstrapPath: string)

  datatype Endpoint = Endpoint(node: string, iface: string)

  datatype Fault = Fault(kind: string, node: string, iface: string, active: bool, restoreUp: bool) {
    function At(): Endpoint { Endpoint(node, iface) }
  }

  /** The fields of a session record that decide what the daemon may do next. */
  datatype Record = Record(state: string, nodes: map<string, Node>, faults: map<string, Fault>)

  /** What a request adds to a node: its control, its disks, and its boot data with the path to keep it under. */
  datatype Extension = Extension(control: string, disks: seq<Disk>, format: string, path: string, data: string)

  /** The metadata of a node as a session is created. */
  function NewNode(ext: map<string, Extension>, n: string): Node {
    if n in ext
    then Node(if ext[n].control == "" then CONTAINER else ext[n].control, "created", ext[n].disks, ext[n].format, ext[n].path)
    else Node(CONTAINER, "created", [], "", "")
  }

  function NewNodes(ext: map<string, Extension>, names: set<string>): map<string, Node> {
    map n | n in names :: NewNode(ext, n)
  }

  /** Where a session keeps its files: a node's disk, and a node's boot data. */
  datatype Layout = Layout(disk: (string, string) -> string, boot: string -> string)

  /** Where boot data of a format appears inside a node. */
  function Target(format: string): Option<string> {
    if format == "cloud-config" then Some("/extra-userdata.yaml")
    else if format == "ignition" then Some("/labcontainers-bootstrap/ignition.json")
    else if format == "powershell" then Some("/labcontainers-bootstrap/userdata.ps1")
    else None
  }

  /** Only white space, which no boot data may be. */
  predicate Blank(s: string) {
    forall i :: 0 <= i < |s| ==> s[i] in " \t\n\r\U{000B}\U{000C}"
  }

  /** What a lifecycle request asks of a node. */
  datatype NodeAction = Crash | PowerOff | Start | Restart | Replace | NoAction

  /** A prepared topology file: its node names and the rest of its text. */
  datatype Topology = Topology(nodes: set<string>, text: string)

  /** Fault `id` is active, of the given kind, on the given endpoint. */
  predicate Holds(r: Record, id: string, kind: string, e: Endpoint) {
    id in r.faults && r.faults[id].active && r.faults[id].kind == kind && r.faults[id].At() == e
  }

  predicate NoneActive(r: Record) {
    forall id :: id in r.faults ==> !r.faults[id].active
  }

  /** Fresh identifiers exist: the identifier is a longer string than any in use. */
  lemma FreshId(taken: set<string>) returns (id: string)
    ensures id !in taken
  {
    var rest, n := taken, 0;
    while rest != {}
      invariant rest <= taken && 0 <= n
      invariant forall t :: t in taken - rest ==> |t| < n
      decreases rest
    {
      var t :| t in rest;
      rest := rest - {t};
      if n <= |t| { n := |t| + 1; }
    }
    id := seq(n, i => 'x');
    assert |id| == n;
  }
}
