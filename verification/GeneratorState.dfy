/** State of the graph generator and what holds of it after every task. */
module GeneratorState {
  import opened Grid
  import opened Reachability
  import opened Commands

  datatype State = State(
    g: Graph,
    numNodes: nat,
    init: map<nat, Cid>,                     // init command of each node
    sources: map<Cell, seq<nat>>,            // nodes holding the newest version, original producer first
    lastWriter: map<nat, map<Cell, Cid>>,    // per node
    bufferReads: map<Cid, set<Cell>>,
    prevHorizon: map<nat, Cid>,              // absent before the first horizon
    lastTid: nat,
    late: set<(nat, Cell)>)                  // where a horizon has replaced a writer that had younger readers

  ghost predicate Domains(s: State) {
    && (forall n: nat :: n in s.lastWriter <==> n < s.numNodes)
    && (forall n: nat :: n < s.numNodes ==> s.lastWriter[n].Keys == s.sources.Keys)
    && (forall n: nat :: n in s.init <==> n < s.numNodes)
  }

  ghost predicate CommandsKnown(s: State) {
    && (forall n :: n in s.init ==> s.init[n] in s.g.commands && s.g.commands[s.init[n]] == Nop(n, 0))
    && (forall c :: c in s.g.commands ==> s.g.commands[c].nid < s.numNodes && s.g.commands[c].tid <= s.lastTid)
    && (forall c :: c in s.g.commands && s.g.commands[c].Nop? ==>
                      s.g.commands[c].nid in s.init && c == s.init[s.g.commands[c].nid])
    && (forall c, p :: c in s.g.commands && (Reads(s.g.commands[c], p) || Writes(s.g.commands[c], p)) ==>
                         p in s.sources)
  }

  ghost function ReadSet(recorded: map<Cid, set<Cell>>, c: Cid): set<Cell> {
    if c in recorded then recorded[c] else {}
  }

  /** The recorded read accesses are those of the commands. */
  ghost predicate ReadsRecorded(s: State) {
    && (forall c :: c in s.bufferReads ==> c in s.g.commands)
    && (forall c, p :: c in s.g.commands ==> (p in ReadSet(s.bufferReads, c) <==> Reads(s.g.commands[c], p)))
  }

  /**
    * At most one command per node and task; chunks of one task write apart; a cell is delivered once per node and task.
    */
  ghost predicate OneWriterPerTask(C: map<Cid, Command>) {
    && (forall c, d :: && c in C && d in C && C[c].TaskCommand? && C[d].TaskCommand?
                       && C[c].tid == C[d].tid && C[c].nid == C[d].nid ==>
                         c == d)
    && (forall c, d, p :: c in C && d in C && Computes(C[c], p) && Computes(C[d], p) && C[c].tid == C[d].tid ==> c == d)
    && (forall c, d, p :: && c in C && d in C && C[c].AwaitPush? && C[d].AwaitPush? && p in C[c].box && p in C[d].box
                          && C[c].tid == C[d].tid && C[c].nid == C[d].nid ==>
                            c == d)
  }

  ghost predicate Awaited(C: map<Cid, Command>, b: Cid) {
    exists a :: a in C && C[a].AwaitPush? && C[a].source == b
  }

  /** PUSHes and AWAIT_PUSHes come in pairs. */
  ghost predicate PushesAwaited(C: map<Cid, Command>) {
    && (forall b :: b in C && C[b].Push? ==> Awaited(C, b))
    && (forall a, a' :: a in C && a' in C && C[a].AwaitPush? && C[a'].AwaitPush? && C[a].source == C[a'].source ==>
                          a == a')
  }

  /**
    * The last-writer entry is the init command, a command writing the cell, or a horizon, and every writer of the cell
    * on the node is the entry or below it.
    */
  ghost predicate EntryCovers(s: State, n: nat, p: Cell)
    requires Domains(s) && n < s.numNodes && p in s.sources
  {
    var e := s.lastWriter[n][p];
    && e in s.g.commands
    && s.g.commands[e].nid == n
    && (s.g.commands[e].Nop? || s.g.commands[e].Horizon? || Writes(s.g.commands[e], p))
    && forall w :: w in s.g.commands && s.g.commands[w].nid == n && Writes(s.g.commands[w], p) ==>
                     w == e || Reaches(s.g.edges, e, w)
  }

  ghost predicate EntriesCover(s: State)
    requires Domains(s)
  {
    forall n: nat, p :: n < s.numNodes && p in s.sources ==> EntryCovers(s, n, p)
  }

  /** Every reader of the cell on the node hangs off the entry or is below it. */
  ghost predicate ReadersUnderEntry(s: State, n: nat, p: Cell)
    requires Domains(s) && n < s.numNodes && p in s.sources
  {
    var e := s.lastWriter[n][p];
    forall r :: r in s.g.commands && s.g.commands[r].nid == n && Reads(s.g.commands[r], p) ==>
                  r == e || (r, e) in s.g.trueEdges || Reaches(s.g.edges, e, r)
  }

  ghost predicate ReadersCovered(s: State)
    requires Domains(s)
  {
    forall n: nat, p :: n < s.numNodes && p in s.sources && (n, p) !in s.late ==> ReadersUnderEntry(s, n, p)
  }

  /** A command that reads or writes a cell comes after every earlier writer of the cell on its node. */
  ghost predicate WritersFirst(g: Graph) {
    forall a, w, p :: a in g.commands && w in g.commands && g.commands[a].nid == g.commands[w].nid
                      && Rank(g.commands[w]) < Rank(g.commands[a])
                      && Writes(g.commands[w], p) && (Reads(g.commands[a], p) || Writes(g.commands[a], p)) ==>
                        Reaches(g.edges, a, w)
  }

  /** `w` overwrites on its node what `r` reads there before. */
  ghost predicate OverwritesRead(g: Graph, w: Cid, r: Cid, p: Cell) {
    && w in g.commands && r in g.commands && g.commands[w].nid == g.commands[r].nid
    && Rank(g.commands[r]) < Rank(g.commands[w])
    && Writes(g.commands[w], p) && Reads(g.commands[r], p)
  }

  /**
    * A command that writes a cell comes after every earlier reader of the cell on its node, unless the cell is late
    * there.
    */
  ghost predicate ReadersFirst(g: Graph, late: set<(nat, Cell)>) {
    forall w, r, p :: OverwritesRead(g, w, r, p) && (g.commands[w].nid, p) !in late ==> Reaches(g.edges, w, r)
  }

  /** Writes of tasks below this number have reached the data that the command leaves in the cell. */
  function Fresh(c: Command): nat {
    match c
    case TaskCommand(_, tid, _, _) => tid + 1
    case AwaitPush(_, tid, _, _) => tid
    case _ => 0
  }

  /** Node `n` has, by commands ranked below `bound`, data that includes the write of task `t`. */
  ghost predicate Reflects(C: map<Cid, Command>, n: nat, p: Cell, t: nat, bound: nat) {
    exists w :: w in C && C[w].nid == n && Writes(C[w], p) && Fresh(C[w]) > t && Rank(C[w]) < bound
  }

  /** Every reader has all earlier tasks' writes on its node. */
  ghost predicate ReadersFed(C: map<Cid, Command>) {
    forall r, c, p :: r in C && c in C && Reads(C[r], p) && Computes(C[c], p) && C[c].tid < C[r].tid ==>
                        Reflects(C, C[r].nid, p, C[c].tid, Rank(C[r]))
  }

  /** Every node listed as a source has all writes. */
  ghost predicate SourcesFed(s: State) {
    forall p, n, c :: p in s.sources && n in s.sources[p] && c in s.g.commands && Computes(s.g.commands[c], p) ==>
                        Reflects(s.g.commands, n, p, s.g.commands[c].tid, 4 * (s.lastTid + 1))
  }

  ghost predicate NoDuplicates(ns: seq<nat>) {
    forall i, j :: 0 <= i < j < |ns| ==> ns[i] != ns[j]
  }

  /** `c` holds the last write of the cell among tasks below `t`. */
  ghost predicate LastComputes(C: map<Cid, Command>, p: Cell, t: nat, c: Cid) {
    && c in C && Computes(C[c], p) && C[c].tid < t
    && forall d :: d in C && Computes(C[d], p) && C[d].tid < t ==> C[d].tid <= C[c].tid
  }

  ghost predicate NeverComputed(C: map<Cid, Command>, p: Cell) {
    forall d :: d in C ==> !Computes(C[d], p)
  }

  ghost predicate SourceListOk(s: State, p: Cell)
    requires p in s.sources
  {
    var ns := s.sources[p];
    && |ns| > 0
    && NoDuplicates(ns)
    && (forall n :: n in ns ==> n < s.numNodes)
    && ( || (exists c :: LastComputes(s.g.commands, p, s.lastTid + 1, c) && s.g.commands[c].nid == ns[0])
         || (NeverComputed(s.g.commands, p) && forall n: nat :: n < s.numNodes ==> n in ns))
  }

  ghost predicate SourceListsOk(s: State) {
    forall p :: p in s.sources ==> SourceListOk(s, p)
  }

  /** A PUSH leaves from the node that computed the version it sends. */
  ghost predicate PushesFromProducer(C: map<Cid, Command>) {
    forall b, p :: b in C && C[b].Push? && p in C[b].box ==>
                     exists c :: LastComputes(C, p, C[b].tid, c) && C[c].nid == C[b].nid
  }

  ghost predicate ComputedBetween(C: map<Cid, Command>, p: Cell, lo: nat, hi: nat) {
    exists c :: c in C && Computes(C[c], p) && lo <= C[c].tid < hi
  }

  /** The command reads the cell or delivers it, so that its node holds the version of its task. */
  ghost predicate Holds(c: Command, p: Cell) {
    Reads(c, p) || (c.AwaitPush? && p in c.box)
  }

  /** `b` delivers a cell that the node of `a` held already at an earlier task. */
  ghost predicate HeldBefore(C: map<Cid, Command>, a: Cid, b: Cid, p: Cell) {
    && a in C && b in C && C[a].nid == C[b].nid && C[a].tid < C[b].tid
    && Holds(C[a], p) && C[b].AwaitPush? && p in C[b].box
  }

  /** What a node has held is delivered again only after a write of that cell. */
  ghost predicate DeliveredOnce(C: map<Cid, Command>) {
    forall a, b, p :: HeldBefore(C, a, b, p) ==> ComputedBetween(C, p, C[a].tid, C[b].tid)
  }

  /** A node that has held a cell stays listed until the cell is written again. */
  ghost predicate DeliveryRemembered(s: State) {
    forall a, p :: a in s.g.commands && Holds(s.g.commands[a], p) ==> Remembered(s, a, p)
  }

  ghost predicate Remembered(s: State, a: Cid, p: Cell)
    requires a in s.g.commands
  {
    && p in s.sources
    && ( || s.g.commands[a].nid in s.sources[p]
         || ComputedBetween(s.g.commands, p, s.g.commands[a].tid, s.lastTid + 1))
  }

  /** Every AWAIT_PUSH has the task command it was generated for as a true dependent. */
  ghost predicate AwaitHasReader(g: Graph) {
    forall a :: a in g.commands && g.commands[a].AwaitPush? ==>
                  exists c :: FeedsTask(g, a, c)
  }

  ghost predicate FeedsTask(g: Graph, a: Cid, c: Cid)
    requires a in g.commands && g.commands[a].AwaitPush?
  {
    && (c, a) in g.trueEdges && c in g.commands && g.commands[c].TaskCommand? && g.commands[c].tid == g.commands[a].tid
    && forall p :: p in g.commands[a].box ==> Reads(g.commands[c], p)
  }

  /** A horizon comes after everything that was created before it on its node. */
  ghost predicate HorizonsCover(g: Graph) {
    forall h, c :: && h in g.commands && c in g.commands && g.commands[h].Horizon? && !g.commands[c].Nop?
                   && g.commands[c].nid == g.commands[h].nid && c < h ==>
                     Reaches(g.edges, h, c)
  }

  ghost predicate PrevHorizonsOk(s: State) {
    forall n :: n in s.prevHorizon ==>
                  s.prevHorizon[n] in s.g.commands && s.g.commands[s.prevHorizon[n]].Horizon?
                      && s.g.commands[s.prevHorizon[n]].nid == n
  }

  /** Shape of the state: the graph, the domains, the bookkeeping. */
  ghost predicate Shape(s: State) {
    && GraphOk(s.g)
    && Domains(s)
    && CommandsKnown(s)
    && ReadsRecorded(s)
    && OneWriterPerTask(s.g.commands)
    && PushesAwaited(s.g.commands)
    && AwaitHasReader(s.g)
    && PrevHorizonsOk(s)
  }

  /** Order: horizons, last-writer entries, and conflicting commands of one node. */
  ghost predicate Order(s: State)
    requires Domains(s)
  {
    && HorizonsCover(s.g)
    && EntriesCover(s)
    && WritersFirst(s.g)
    && ReadersCovered(s)
    && ReadersFirst(s.g, s.late)
  }

  /** Data: who holds which version. */
  ghost predicate Data(s: State) {
    && ReadersFed(s.g.commands)
    && SourcesFed(s)
    && SourceListsOk(s)
    && PushesFromProducer(s.g.commands)
    && DeliveredOnce(s.g.commands)
    && DeliveryRemembered(s)
  }

  ghost predicate Inv(s: State) {
    Shape(s) && Order(s) && Data(s)
  }
}
