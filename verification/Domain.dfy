/** Vocabulary shared by the lifecycle model: sandbox records, runtime entries and
    the small collection helpers the ledgers are summed with. */
module Domain {

  type Id = string
  type Digest = string
  type Ip = string   // "" stands for "no address"

  const MAX_INT64 := 0x7FFF_FFFF_FFFF_FFFF
  type Int64 = x: int | -MAX_INT64 - 1 <= x <= MAX_INT64

  datatype Option<+T> = None | Some(value: T)

  /** The persisted lifecycle states (internal/sandbox/metadata.go). */
  datatype State = Creating | Ready | Suspended | Paused | Unknown

  /** The fields of a stored record that some lifecycle decision reads or writes. */
  datatype Record = Record(
    state: State,
    e2b: bool,
    source: Digest,        // SourceTemplateID
    head: Digest,          // CheckpointHeadTemplateID
    ip: Ip,
    pid: nat,              // VMMPID
    cpus: int,
    ramMB: int,
    network: string,
    autoResume: bool,
    expiresAt: int,
    startedAt: int,
    headStartedAt: int,
    headCreatedAt: int)

  /** Who froze the guest, if it is frozen: a user's Suspend or a checkpoint capture. */
  datatype Freeze = Thawed | ByUser | ByCapture

  /** The VMM handle of a runtime entry. `exited` is true once the exit is confirmed, and for
      a process object whose command never started. */
  datatype Process = Process(vmm: nat, exited: bool, freeze: Freeze)

  /** A runtime entry. `gen` is the identity of the entry object, which the exit watcher of
      one incarnation compares against the current one. */
  datatype Entry = Entry(
    state: State,
    gen: nat,
    process: Option<Process>,
    slot: Option<Ip>,      // the held network slot; Some("") once its CNI address is gone
    ram: nat,
    volumes: bool)

  datatype Alloc = Alloc(cpus: int, memoryMB: int)

  datatype ErrorKind =
    | NotFound | AlreadyExists | InvalidArgument | FailedPrecondition | RuntimeDead | ResourceExhausted | Internal

  datatype Outcome = Ok | Err(kind: ErrorKind)

  function Lookup<T>(m: map<Id, T>, id: Id): Option<T> {
    if id in m then Some(m[id]) else None
  }

  /** Writes or removes one key. */
  function Set<T>(m: map<Id, T>, id: Id, o: Option<T>): map<Id, T> {
    match o
    case Some(x) => m[id := x]
    case None => m - {id}
  }

  ghost function Sum<T>(m: map<Id, T>, f: T -> int): int {
    if m == map[] then 0 else
      var k :| k in m;
      f(m[k]) + Sum(m - {k}, f)
  }

  lemma {:induction false} SumPick<T>(m: map<Id, T>, f: T -> int, k: Id)
    requires k in m
    ensures Sum(m, f) == f(m[k]) + Sum(m - {k}, f)
    decreases m
  {
    var p :| p in m && Sum(m, f) == f(m[p]) + Sum(m - {p}, f);
    if p != k {
      SumPick(m - {p}, f, k);
      SumPick(m - {k}, f, p);
      assert m - {p} - {k} == m - {k} - {p};
    }
  }

  function Weight<T>(o: Option<T>, f: T -> int): int {
    match o
    case Some(x) => f(x)
    case None => 0
  }

  /** Changing one key changes the total by the difference of the two weights. */
  lemma SumSet<T>(m: map<Id, T>, f: T -> int, id: Id, o: Option<T>)
    ensures Sum(Set(m, id, o), f) == Sum(m, f) - Weight(Lookup(m, id), f) + Weight(o, f)
  {
    var rest := m - {id};
    if id in m { SumPick(m, f, id); } else { assert rest == m; }
    if o.Some? {
      SumPick(m[id := o.value], f, id);
      assert m[id := o.value] - {id} == rest;
    }
  }

  lemma {:induction false} SumNonNegative<T>(m: map<Id, T>, f: T -> int)
    requires forall k :: k in m ==> f(m[k]) >= 0
    ensures Sum(m, f) >= 0
    decreases m
  {
    if m != map[] {
      var k :| k in m && Sum(m, f) == f(m[k]) + Sum(m - {k}, f);
      SumNonNegative(m - {k}, f);
    }
  }
}
