/**
 * Chunked downloads (net/hub.rs): several workers fetch ranges of a file into
 * a part file, mark whole chunks in memory and in a state file, and may be
 * killed at any step; a hasher follows in order. Every interleaving is a run.
 */
module Hub {
  import opened Options

  type Data = seq<int>

  const CHUNK: nat := 8_388_608
  const ATTEMPTS: nat := 5
  const IN_FLIGHT: nat := 32

  // ------------------------------------------------------------------
  // Chunks
  // ------------------------------------------------------------------

  function Chunks(size: nat): nat { (size + CHUNK - 1) / CHUNK }

  /** Where chunk i of a file starts; after the last chunk, the file's end. */
  function Limit(i: nat, size: nat): nat { if i * CHUNK < size then i * CHUNK else size }

  /** Start and length of chunk i. */
  function Span(i: nat, size: nat): (r: (nat, nat))
    requires i < Chunks(size)
    ensures r.0 == Limit(i, size) && r.0 + r.1 == Limit(i + 1, size) && 0 < r.1 <= CHUNK
  {
    var start := i * CHUNK;
    (start, if CHUNK < size - start then CHUNK else size - start)
  }

  /** Spans tile the file: every byte lies in exactly one chunk. */
  lemma SpansTile(size: nat, b: nat, i: nat)
    requires b < size && i < Chunks(size)
    ensures b / CHUNK < Chunks(size)
    ensures Span(i, size).0 <= b < Span(i, size).0 + Span(i, size).1 <==> i == b / CHUNK
    ensures Limit(0, size) == 0 && Limit(Chunks(size), size) == size
  {}

  /** The first chunk of from..end whose state is want; end when there is none. */
  function FirstIs(done: seq<bool>, from: nat, end: nat, want: bool): (i: nat)
    requires from <= end <= |done|
    ensures from <= i <= end && (i < end ==> done[i] == want)
    ensures forall j | from <= j < i :: done[j] != want
    decreases end - from
  {
    if from == end || done[from] == want then from else FirstIs(done, from + 1, end, want)
  }

  /** The first run of consecutive missing chunks in from..end. */
  function Missing(done: seq<bool>, from: nat, end: nat): (r: Option<(nat, nat)>)
    requires from <= end <= |done|
    ensures r.None? <==> forall j | from <= j < end :: done[j]
    ensures r.Some? ==>
      && from <= r.value.0 < r.value.1 <= end
      && (forall j | from <= j < r.value.0 :: done[j])
      && (forall j | r.value.0 <= j < r.value.1 :: !done[j])
      && (r.value.1 < end ==> done[r.value.1])
  {
    var first := FirstIs(done, from, end, false);
    if first == end then None else Some((first, FirstIs(done, first, end, true)))
  }

  /** Bytes of the chunks marked. */
  function Total(marked: seq<bool>, size: nat): nat
    requires |marked| <= Chunks(size)
  {
    if marked == [] then 0
    else Total(marked[..|marked| - 1], size) + (if marked[|marked| - 1] then Span(|marked| - 1, size).1 else 0)
  }

  lemma {:induction false} TotalMark(marked: seq<bool>, i: nat, size: nat)
    requires i < |marked| <= Chunks(size) && !marked[i]
    ensures Total(marked[i := true], size) == Total(marked, size) + Span(i, size).1
    decreases |marked|
  {
    var n := |marked| - 1;
    if i < n {
      assert marked[i := true][..n] == marked[..n][i := true];
      TotalMark(marked[..n], i, size);
    } else {
      assert marked[i := true][..n] == marked[..n];
    }
  }

  lemma {:induction false} TotalAll(marked: seq<bool>, size: nat)
    requires |marked| <= Chunks(size) && forall i | 0 <= i < |marked| :: marked[i]
    ensures Total(marked, size) == Limit(|marked|, size)
    decreases |marked|
  {
    if marked != [] {
      TotalAll(marked[..|marked| - 1], size);
    }
  }

  // ------------------------------------------------------------------
  // Steps
  // ------------------------------------------------------------------

  /** The file at the Hub, its digest, and how the download divides the work. */
  datatype Env = Env(source: Data, sha: int, digest: Data -> int, run: nat, workers: nat)

  /**
   * A worker about to claim, between fetches of its claim first..end, before
   * attempt n at the missing chunks from..to, or receiving lo..hi: the body so
   * far, the current chunk, and how far its mark has come (1: on disk, 2:
   * counted). A body may hold anything.
   */
  datatype Worker =
    | Ready
    | Stopped
    | Scan(first: nat, end: nat, at: nat)
    | Attempt(first: nat, end: nat, from: nat, to: nat, n: nat)
    | Transfer(first: nat, end: nat, from: nat, to: nat, n: nat,
               lo: nat, hi: nat, chunk: nat, step: nat, got: Data)

  /**
   * Both files, the process's memory, and the history: the chunks counted
   * into received, and the bytes each chunk had when it was marked.
   */
  datatype State = State(
    part: Data, flags: seq<bool>,
    done: seq<bool>, counted: seq<bool>, next: nat, received: nat, failed: bool,
    workers: seq<Worker>, hashing: nat, hashed: Data,
    target: Option<Data>, bodies: seq<Data>)

  datatype Action =
    | Claim(k: nat)
    | Rescan(k: nat)
    | Begin(k: nat)
    | Deliver(k: nat, body: Data)
    | MarkDisk(k: nat)
    | MarkCount(k: nat)
    | MarkDone(k: nat)
    | Close(k: nat, accepted: bool)
    | HashChunk
    | Finish
    | Crash

  predicate Shape(e: Env, s: State) {
    && |s.part| >= |e.source|
    && |s.flags| == |s.done| == |s.counted| == |s.bodies| == Chunks(|e.source|)
    && |s.workers| == e.workers && e.run >= 1
    && s.hashing <= Chunks(|e.source|)
  }

  /** Where the next byte of a body goes. */
  function Pos(e: Env, w: Worker): nat
    requires w.Transfer?
  {
    Limit(w.lo, |e.source|) + |w.got|
  }

  /** Limits and chunks of one transfer make sense. */
  predicate Bounds(e: Env, w: Worker) {
    var n := Chunks(|e.source|);
    match w
    case Ready => true
    case Stopped => true
    case Scan(first, end, at) => first <= at <= end <= n && first < end
    case Attempt(first, end, from, to, _) => first <= from < to <= end <= n
    case Transfer(first, end, from, to, _, lo, hi, chunk, step, got) =>
      && first <= from < to <= end <= n
      && from <= lo < hi <= end && lo <= chunk <= hi && step <= 2
      && Limit(chunk, |e.source|) <= Pos(e, w)
      && (step > 0 ==> chunk < hi && Pos(e, w) >= Limit(chunk + 1, |e.source|))
  }

  predicate Sane(e: Env, s: State) {
    && Shape(e, s)
    && forall k | 0 <= k < |s.workers| ::
         Bounds(e, s.workers[k]) && (s.workers[k].Transfer? ==> Pos(e, s.workers[k]) <= |s.part|)
  }

  /** A whole chunk waits to be marked before more of the body is taken. */
  predicate Whole(e: Env, w: Worker)
    requires w.Transfer?
  {
    w.chunk < w.hi && Pos(e, w) >= Limit(w.chunk + 1, |e.source|)
  }

  predicate Enabled(e: Env, s: State, a: Action)
    requires Sane(e, s)
  {
    s.target.None? &&
    match a
    case Claim(k) => k < |s.workers| && s.workers[k] == Ready
    case Rescan(k) => k < |s.workers| && s.workers[k].Scan?
    case Begin(k) => k < |s.workers| && s.workers[k].Attempt?
    case Deliver(k, body) => k < |s.workers| && s.workers[k].Transfer? && s.workers[k].step == 0 && !Whole(e, s.workers[k])
    case MarkDisk(k) => k < |s.workers| && s.workers[k].Transfer? && s.workers[k].step == 0 && Whole(e, s.workers[k])
    case MarkCount(k) => k < |s.workers| && s.workers[k].Transfer? && s.workers[k].step == 1
    case MarkDone(k) => k < |s.workers| && s.workers[k].Transfer? && s.workers[k].step == 2
    case Close(k, _) => k < |s.workers| && s.workers[k].Transfer? && s.workers[k].step == 0 && !Whole(e, s.workers[k])
    case HashChunk => s.hashing < |s.done| && s.done[s.hashing]
    case Finish => (s.failed || s.hashing == |s.done|) && forall k | 0 <= k < |s.workers| :: s.workers[k] == Stopped
    case Crash => true
  }

  /** A write in place; one past the end makes the file longer. */
  function Put(part: Data, at: nat, body: Data): (r: Data)
    requires at <= |part|
    ensures |r| == if at + |body| <= |part| then |part| else at + |body|
    ensures forall b | 0 <= b < |r| :: r[b] == if at <= b < at + |body| then body[b - at] else if b < |part| then part[b] else 0
  {
    part[..at] + body + (if at + |body| <= |part| then part[at + |body|..] else [])
  }

  /** The bytes of the current chunk in a body that covers it. */
  function ChunkOf(e: Env, w: Worker): Data
    requires w.Transfer? && Bounds(e, w) && Whole(e, w)
  {
    var size := |e.source|;
    LimitMonotone(w.lo, w.chunk, size);
    LimitMonotone(w.chunk, w.chunk + 1, size);
    w.got[Limit(w.chunk, size) - Limit(w.lo, size)..Limit(w.chunk + 1, size) - Limit(w.lo, size)]
  }

  /** A process that starts on the files as they are, the part file cut to size. */
  function Opened(e: Env, part: Data, flags: seq<bool>, bodies: seq<Data>): State
    requires |flags| == Chunks(|e.source|) && |part| >= |e.source|
  {
    State(part[..|e.source|], flags, flags, flags, 0, Total(flags, |e.source|), false, seq(e.workers, _ => Ready), 0, [], None, bodies)
  }

  function Step(e: Env, s: State, a: Action): State
    requires Sane(e, s) && Enabled(e, s, a)
  {
    var size := |e.source|;
    var n := Chunks(size);
    match a
    case Claim(k) =>
      var first := s.next;
      var end := if first + e.run < n then first + e.run else n;
      s.(next := first + e.run, workers := s.workers[k := if first >= n || s.failed then Stopped else Scan(first, end, first)])
    case Rescan(k) =>
      var w := s.workers[k];
      (match Missing(s.done, w.at, w.end)
       case None => s.(workers := s.workers[k := Ready])
       case Some(m) => s.(workers := s.workers[k := Attempt(w.first, w.end, m.0, m.1, 1)]))
    case Begin(k) =>
      var w := s.workers[k];
      (match Missing(s.done, w.from, w.end)
       case None => s.(workers := s.workers[k := Scan(w.first, w.end, w.to)])
       case Some(m) => s.(workers := s.workers[k := Transfer(w.first, w.end, w.from, w.to, w.n, m.0, m.1, m.0, 0, [])]))
    case Deliver(k, body) =>
      var w := s.workers[k];
      s.(part := Put(s.part, Pos(e, w), body), workers := s.workers[k := w.(got := w.got + body)])
    case MarkDisk(k) =>
      var w := s.workers[k];
      s.(flags := s.flags[w.chunk := true], bodies := s.bodies[w.chunk := ChunkOf(e, w)], workers := s.workers[k := w.(step := 1)])
    case MarkCount(k) =>
      var w := s.workers[k];
      s.(received := s.received + Span(w.chunk, size).1, counted := s.counted[w.chunk := true], workers := s.workers[k := w.(step := 2)])
    case MarkDone(k) =>
      var w := s.workers[k];
      s.(done := s.done[w.chunk := true], workers := s.workers[k := w.(step := 0, chunk := w.chunk + 1)])
    case Close(k, accepted) =>
      var w := s.workers[k];
      if accepted && Pos(e, w) == Limit(w.hi, size) then s.(workers := s.workers[k := Scan(w.first, w.end, w.to)])
      else if w.n == ATTEMPTS then s.(failed := true, workers := s.workers[k := Stopped])
      else s.(workers := s.workers[k := Attempt(w.first, w.end, w.from, w.to, w.n + 1)])
    case HashChunk =>
      LimitMonotone(s.hashing, s.hashing + 1, size);
      s.(hashing := s.hashing + 1, hashed := s.hashed + s.part[Limit(s.hashing, size)..Limit(s.hashing + 1, size)])
    case Finish =>
      if s.failed then Opened(e, s.part, s.flags, s.bodies)
      else if e.digest(s.hashed) != e.sha then Opened(e, s.part, seq(n, _ => false), s.bodies)
      else s.(target := Some(s.part))
    case Crash => Opened(e, s.part, s.flags, s.bodies)
  }

  lemma LimitMonotone(i: nat, j: nat, size: nat)
    requires i <= j
    ensures Limit(i, size) <= Limit(j, size) <= size
  {}

  lemma LimitBelow(i: nat, size: nat)
    requires i < Chunks(size)
    ensures Limit(i, size) < Limit(i + 1, size) <= size
  {}

  // ------------------------------------------------------------------
  // What holds whatever the bodies hold
  // ------------------------------------------------------------------

  predicate AllDone(s: State, from: nat, to: nat) {
    to <= |s.done| && forall i | from <= i < to :: s.done[i]
  }

  /** Nobody has marked these chunks. */
  predicate Untouched(s: State, from: nat, to: nat) {
    && to <= |s.done| && |s.flags| == |s.done| == |s.counted|
    && forall i | from <= i < to :: !s.done[i] && !s.flags[i] && !s.counted[i]
  }

  predicate Holding(w: Worker) { w.Scan? || w.Attempt? || w.Transfer? }

  /** What a worker relies on, all of it about its own claim. */
  predicate WorkerOk(e: Env, s: State, w: Worker)
    requires Shape(e, s)
  {
    && Bounds(e, w) && (w.Transfer? ==> Pos(e, w) <= |s.part|)
    && (Holding(w) ==> w.end <= s.next)
    && (w.Scan? ==> AllDone(s, w.first, w.at))
    && (w.Attempt? ==> AllDone(s, w.first, w.from) && exists p :: w.from <= p <= w.to && AllDone(s, w.from, p) && Untouched(s, p, w.to))
    && (w.Transfer? ==>
          && AllDone(s, w.first, w.chunk) && (w.lo < w.to ==> w.to <= w.hi)
          && Untouched(s, if w.step == 0 then w.chunk else w.chunk + 1, w.hi)
          && (w.step > 0 ==> s.flags[w.chunk] && !s.done[w.chunk] && s.counted[w.chunk] == (w.step == 2)))
  }

  /** Worker k is in the middle of marking chunk i. */
  predicate MidMark(s: State, i: nat, k: nat) {
    k < |s.workers| && s.workers[k].Transfer? && s.workers[k].chunk == i && s.workers[k].step > 0
  }

  predicate Apart(v: Worker, w: Worker) {
    Holding(v) && Holding(w) ==> v.end <= w.first || w.end <= v.first
  }

  /** Marks on disk and in memory, and who is behind a mark not yet complete. */
  ghost predicate MarksOk(e: Env, s: State)
    requires Shape(e, s)
  {
    && (forall i | 0 <= i < |s.done| :: s.done[i] ==> s.flags[i] && s.counted[i])
    && (forall i | 0 <= i < |s.done| :: (s.flags[i] || s.counted[i]) && !s.done[i] ==> exists k :: MidMark(s, i, k))
    && s.received == Total(s.counted, |e.source|)
    && AllDone(s, 0, s.hashing)
  }

  predicate ClaimsOk(e: Env, s: State)
    requires Shape(e, s)
  {
    && (forall k | 0 <= k < |s.workers| :: WorkerOk(e, s, s.workers[k]))
    && (forall k, l | 0 <= k < l < |s.workers| :: Apart(s.workers[k], s.workers[l]))
  }

  /** The invariant of every run, whatever the bodies hold and however long they are. */
  ghost predicate Good(e: Env, s: State) {
    Shape(e, s) && MarksOk(e, s) && ClaimsOk(e, s)
  }

  // One worker's step leaves the others' claims alone.

  /** Between s and t no mark changed within chunks first..end. */
  predicate Quiet(e: Env, s: State, t: State, first: nat, end: nat)
    requires Shape(e, s) && Shape(e, t) && end <= Chunks(|e.source|)
  {
    && |s.part| <= |t.part|
    && forall i | first <= i < end :: t.done[i] == s.done[i] && t.flags[i] == s.flags[i] && t.counted[i] == s.counted[i]
  }

  lemma OtherOk(e: Env, s: State, t: State, w: Worker)
    requires Shape(e, s) && Shape(e, t) && WorkerOk(e, s, w) && s.next <= t.next
    requires Holding(w) ==> Quiet(e, s, t, w.first, w.end)
    ensures WorkerOk(e, t, w)
  {
    if w.Attempt? {
      var p :| w.from <= p <= w.to && AllDone(s, w.from, p) && Untouched(s, p, w.to);
      assert AllDone(t, w.from, p) && Untouched(t, p, w.to);
    }
  }

  lemma ClaimsKept(e: Env, s: State, t: State, k: nat)
    requires Shape(e, s) && Shape(e, t) && ClaimsOk(e, s) && k < |s.workers| && s.next <= t.next
    requires forall l | 0 <= l < |s.workers| && l != k :: t.workers[l] == s.workers[l]
    requires WorkerOk(e, t, t.workers[k])
    requires Holding(t.workers[k]) ==> Holding(s.workers[k]) && t.workers[k].first == s.workers[k].first && t.workers[k].end == s.workers[k].end
    requires forall l | 0 <= l < |s.workers| && l != k && Holding(s.workers[l]) :: Quiet(e, s, t, s.workers[l].first, s.workers[l].end)
    ensures ClaimsOk(e, t)
  {
    hide WorkerOk, Quiet, Apart;
    forall l | 0 <= l < |s.workers| ensures WorkerOk(e, t, t.workers[l]) {
      if l != k {
        assert WorkerOk(e, s, s.workers[l]);
        OtherOk(e, s, t, s.workers[l]);
      }
    }
    forall i, j | 0 <= i < j < |s.workers| ensures Apart(t.workers[i], t.workers[j]) {
      assert Apart(s.workers[i], s.workers[j]);
      if i == k {
        ApartKept(s.workers[k], t.workers[k], s.workers[j]);
      } else if j == k {
        ApartKept(s.workers[k], t.workers[k], s.workers[i]);
        ApartKept(s.workers[i], s.workers[i], t.workers[k]);
      }
    }
  }

  lemma ApartKept(v: Worker, v': Worker, w: Worker)
    requires Holding(v') ==> Holding(v) && v'.first == v.first && v'.end == v.end
    ensures Apart(v, w) ==> Apart(v', w)
    ensures Apart(w, v) ==> Apart(w, v') && Apart(v', w)
  {}

  lemma HolderOk(e: Env, s: State, k: nat)
    requires Good(e, s) && k < |s.workers|
    ensures Shape(e, s) && WorkerOk(e, s, s.workers[k])
  {}

  lemma ApartPair(e: Env, s: State, k: nat, l: nat)
    requires Good(e, s) && k < |s.workers| && l < |s.workers| && k != l
    ensures Apart(s.workers[k], s.workers[l]) && Bounds(e, s.workers[l])
  {
    assert WorkerOk(e, s, s.workers[l]);
    assert if k < l then Apart(s.workers[k], s.workers[l]) else Apart(s.workers[l], s.workers[k]);
  }

  lemma ApartOrder(v: Worker, w: Worker)
    requires Apart(v, w) && Holding(v) && Holding(w)
    ensures v.end <= w.first || w.end <= v.first
  {}

  lemma GoodSane(e: Env, s: State)
    requires Good(e, s)
    ensures Sane(e, s)
  {
    forall k | 0 <= k < |s.workers| ensures Bounds(e, s.workers[k]) && (s.workers[k].Transfer? ==> Pos(e, s.workers[k]) <= |s.part|) {
      assert WorkerOk(e, s, s.workers[k]);
    }
  }

  /** Missing chunks of one's own claim that one is not marking are untouched by anybody. */
  lemma Fresh(e: Env, s: State, k: nat, from: nat, to: nat)
    requires Good(e, s) && k < |s.workers| && Holding(s.workers[k])
    requires s.workers[k].Transfer? ==> s.workers[k].step == 0
    requires s.workers[k].first <= from <= to <= s.workers[k].end
    requires forall i | from <= i < to :: !s.done[i]
    ensures to <= |s.done| && Untouched(s, from, to)
  {
    HolderOk(e, s, k);
    forall i | from <= i < to ensures !s.flags[i] && !s.counted[i] {
      forall l: nat | MidMark(s, i, l) ensures l == k {
        HolderOk(e, s, l);
        if l != k {
          ApartPair(e, s, k, l);
        }
      }
    }
  }

  /** A step that only moves worker k between marks changes no mark. */
  lemma MarksStill(e: Env, s: State, t: State, k: nat)
    requires Shape(e, s) && Shape(e, t) && MarksOk(e, s) && k < |s.workers|
    requires t.flags == s.flags && t.done == s.done && t.counted == s.counted && t.received == s.received && t.hashing == s.hashing
    requires forall l | 0 <= l < |s.workers| && l != k :: t.workers[l] == s.workers[l]
    requires !(s.workers[k].Transfer? && s.workers[k].step > 0)
    ensures MarksOk(e, t)
  {
    forall i | 0 <= i < |t.done| && (t.flags[i] || t.counted[i]) && !t.done[i] ensures exists l :: MidMark(t, i, l) {
      var l :| MidMark(s, i, l);
      assert MidMark(t, i, l);
    }
  }

  lemma QuietStill(e: Env, s: State, t: State, k: nat)
    requires Shape(e, s) && Shape(e, t) && ClaimsOk(e, s) && |s.part| <= |t.part|
    requires t.flags == s.flags && t.done == s.done && t.counted == s.counted
    ensures forall l | 0 <= l < |s.workers| && l != k && Holding(s.workers[l]) ::
      s.workers[l].end <= Chunks(|e.source|) && Quiet(e, s, t, s.workers[l].first, s.workers[l].end)
  {
    forall l | 0 <= l < |s.workers| && l != k && Holding(s.workers[l])
      ensures s.workers[l].end <= Chunks(|e.source|) && Quiet(e, s, t, s.workers[l].first, s.workers[l].end)
    {
      assert WorkerOk(e, s, s.workers[l]);
    }
  }

  /** A worker moves on without touching marks. */
  lemma MoveKeeps(e: Env, s: State, k: nat, u: Worker, failed: bool, part: Data)
    requires Good(e, s) && k < |s.workers| && |s.part| <= |part| && WorkerOk(e, s.(part := part), u)
    requires !(s.workers[k].Transfer? && s.workers[k].step > 0)
    requires Holding(u) ==> Holding(s.workers[k]) && u.first == s.workers[k].first && u.end == s.workers[k].end
    ensures Good(e, s.(workers := s.workers[k := u], failed := failed, part := part))
  {
    hide WorkerOk;
    var m := s.(part := part);
    var t := s.(workers := s.workers[k := u], failed := failed, part := part);
    MarksStill(e, s, t, k);
    QuietStill(e, s, t, k);
    UserBounds(e, m, u);
    OtherOk(e, m, t, u);
    ClaimsKept(e, s, t, k);
  }

  lemma UserBounds(e: Env, s: State, u: Worker)
    requires Shape(e, s) && WorkerOk(e, s, u)
    ensures Bounds(e, u)
  {}

  lemma ClaimKeeps(e: Env, s: State, k: nat)
    requires Good(e, s) && Sane(e, s) && Enabled(e, s, Claim(k))
    ensures Good(e, Step(e, s, Claim(k)))
  {
    var t := Step(e, s, Claim(k));
    MarksStill(e, s, t, k);
    QuietStill(e, s, t, k);
    forall l | 0 <= l < |s.workers| ensures WorkerOk(e, t, t.workers[l]) {
      assert WorkerOk(e, s, s.workers[l]);
      if l != k {
        OtherOk(e, s, t, s.workers[l]);
      }
    }
    forall i, j | 0 <= i < j < |t.workers| ensures Apart(t.workers[i], t.workers[j]) {
      assert Apart(s.workers[i], s.workers[j]);
      assert WorkerOk(e, s, s.workers[i]) && WorkerOk(e, s, s.workers[j]);
    }
  }

  lemma RescanOk(e: Env, s: State, w: Worker, m: (nat, nat))
    requires Shape(e, s) && w.Scan? && WorkerOk(e, s, w) && Missing(s.done, w.at, w.end) == Some(m) && Untouched(s, m.0, m.1)
    ensures WorkerOk(e, s, Attempt(w.first, w.end, m.0, m.1, 1))
  {
    assert AllDone(s, m.0, m.0);
  }

  lemma RescanKeeps(e: Env, s: State, k: nat)
    requires Good(e, s) && Sane(e, s) && Enabled(e, s, Rescan(k))
    ensures Good(e, Step(e, s, Rescan(k)))
  {
    hide Good, Shape, WorkerOk;
    var w := s.workers[k];
    HolderOk(e, s, k);
    assert Bounds(e, w);
    SameLengths(e, s);
    match Missing(s.done, w.at, w.end)
    case None => ReadyOk(e, s); MoveKeeps(e, s, k, Ready, s.failed, s.part);
    case Some(m) =>
      Fresh(e, s, k, m.0, m.1);
      RescanOk(e, s, w, m);
      MoveKeeps(e, s, k, Attempt(w.first, w.end, m.0, m.1, 1), s.failed, s.part);
  }

  lemma SameLengths(e: Env, s: State)
    requires Shape(e, s)
    ensures |s.flags| == |s.done| == |s.counted| == Chunks(|e.source|) && |s.part| >= |e.source|
  {}

  lemma ReadyOk(e: Env, s: State)
    requires Shape(e, s)
    ensures WorkerOk(e, s, Ready) && WorkerOk(e, s, Stopped)
  {}

  lemma BeginOk(e: Env, s: State, w: Worker, m: (nat, nat))
    requires Shape(e, s) && w.Attempt? && WorkerOk(e, s, w) && Missing(s.done, w.from, w.end) == Some(m) && Untouched(s, m.0, m.1)
    ensures WorkerOk(e, s, Transfer(w.first, w.end, w.from, w.to, w.n, m.0, m.1, m.0, 0, []))
  {
    var p :| w.from <= p <= w.to && AllDone(s, w.from, p) && Untouched(s, p, w.to);
    LimitBelow(m.0, |e.source|);
    LimitMonotone(m.0, m.1, |e.source|);
  }

  lemma AllThrough(e: Env, s: State, w: Worker)
    requires Shape(e, s) && w.Attempt? && WorkerOk(e, s, w) && Missing(s.done, w.from, w.end).None?
    ensures WorkerOk(e, s, Scan(w.first, w.end, w.to))
  {}

  lemma BeginKeeps(e: Env, s: State, k: nat)
    requires Good(e, s) && Sane(e, s) && Enabled(e, s, Begin(k))
    ensures Good(e, Step(e, s, Begin(k)))
  {
    hide Good, Shape, WorkerOk;
    var w := s.workers[k];
    HolderOk(e, s, k);
    assert Bounds(e, w);
    SameLengths(e, s);
    match Missing(s.done, w.from, w.end)
    case None =>
      AllThrough(e, s, w);
      MoveKeeps(e, s, k, Scan(w.first, w.end, w.to), s.failed, s.part);
    case Some(m) =>
      Fresh(e, s, k, m.0, m.1);
      BeginOk(e, s, w, m);
      MoveKeeps(e, s, k, Transfer(w.first, w.end, w.from, w.to, w.n, m.0, m.1, m.0, 0, []), s.failed, s.part);
  }

  lemma DeliverOk(e: Env, s: State, w: Worker, body: Data)
    requires Shape(e, s) && w.Transfer? && WorkerOk(e, s, w) && w.step == 0
    ensures WorkerOk(e, s.(part := Put(s.part, Pos(e, w), body)), w.(got := w.got + body))
  {}

  lemma DeliverKeeps(e: Env, s: State, k: nat, body: Data)
    requires Good(e, s) && Sane(e, s) && Enabled(e, s, Deliver(k, body))
    ensures Good(e, Step(e, s, Deliver(k, body)))
  {
    hide Good, Shape, WorkerOk, Put;
    var w := s.workers[k];
    HolderOk(e, s, k);
    DeliverOk(e, s, w, body);
    MoveKeeps(e, s, k, w.(got := w.got + body), s.failed, Put(s.part, Pos(e, w), body));
  }

  /** A response that delivered the whole range leaves none of the run missing. */
  lemma CloseWhole(e: Env, s: State, w: Worker)
    requires Shape(e, s) && w.Transfer? && WorkerOk(e, s, w) && w.step == 0 && !Whole(e, w) && Pos(e, w) == Limit(w.hi, |e.source|)
    ensures WorkerOk(e, s, Scan(w.first, w.end, w.to))
  {}

  lemma CloseShort(e: Env, s: State, w: Worker)
    requires Shape(e, s) && w.Transfer? && WorkerOk(e, s, w) && w.step == 0
    ensures WorkerOk(e, s, Attempt(w.first, w.end, w.from, w.to, w.n + 1))
  {
    var p := if w.chunk < w.to then w.chunk else w.to;
    assert AllDone(s, w.from, p) && Untouched(s, p, w.to);
  }

  lemma CloseKeeps(e: Env, s: State, k: nat, accepted: bool)
    requires Good(e, s) && Sane(e, s) && Enabled(e, s, Close(k, accepted))
    ensures Good(e, Step(e, s, Close(k, accepted)))
  {
    hide Good, Shape, WorkerOk;
    var w := s.workers[k];
    HolderOk(e, s, k);
    ReadyOk(e, s);
    if accepted && Pos(e, w) == Limit(w.hi, |e.source|) {
      CloseWhole(e, s, w);
      MoveKeeps(e, s, k, Scan(w.first, w.end, w.to), s.failed, s.part);
    } else if w.n == ATTEMPTS {
      MoveKeeps(e, s, k, Stopped, true, s.part);
    } else {
      CloseShort(e, s, w);
      MoveKeeps(e, s, k, Attempt(w.first, w.end, w.from, w.to, w.n + 1), s.failed, s.part);
    }
  }

  // Marking one chunk: on disk, then counted, then in memory.

  lemma DiskOk(e: Env, s: State, w: Worker)
    requires Shape(e, s) && w.Transfer? && WorkerOk(e, s, w) && w.step == 0 && Whole(e, w)
    ensures WorkerOk(e, s.(flags := s.flags[w.chunk := true]), w.(step := 1))
  {}

  lemma CountOk(e: Env, s: State, w: Worker)
    requires Shape(e, s) && w.Transfer? && WorkerOk(e, s, w) && w.step == 1
    ensures w.chunk < |s.counted| && !s.counted[w.chunk]
    ensures WorkerOk(e, s.(counted := s.counted[w.chunk := true]), w.(step := 2))
  {}

  lemma DoneOk(e: Env, s: State, w: Worker)
    requires Shape(e, s) && w.Transfer? && WorkerOk(e, s, w) && w.step == 2
    ensures w.chunk < |s.done| && s.flags[w.chunk] && s.counted[w.chunk]
    ensures WorkerOk(e, s.(done := s.done[w.chunk := true]), w.(step := 0, chunk := w.chunk + 1))
  {}

  /** Others' marks in progress are still in progress when worker k moves on. */
  lemma OthersMark(e: Env, s: State, t: State, k: nat)
    requires Good(e, s) && Shape(e, t) && k < |s.workers| && s.workers[k].Transfer?
    requires forall l | 0 <= l < |s.workers| && l != k :: t.workers[l] == s.workers[l]
    ensures forall i | 0 <= i < |s.done| && i != s.workers[k].chunk && (s.flags[i] || s.counted[i]) && !s.done[i] :: exists l :: MidMark(t, i, l)
  {
    forall i | 0 <= i < |s.done| && i != s.workers[k].chunk && (s.flags[i] || s.counted[i]) && !s.done[i] ensures exists l :: MidMark(t, i, l) {
      var l :| MidMark(s, i, l);
      assert MidMark(t, i, l);
    }
  }

  /** Marking a chunk of one's own claim is quiet elsewhere. */
  lemma MarkClaims(e: Env, s: State, t: State, k: nat, w: Worker)
    requires Good(e, s) && Shape(e, t) && k < |s.workers| && s.workers[k].Transfer? && Holding(w)
    requires s.workers[k].chunk < s.workers[k].hi && s.workers[k].hi <= s.workers[k].end <= Chunks(|e.source|)
    requires t.workers == s.workers[k := w] && t.part == s.part && t.next == s.next
    requires s.workers[k].first <= s.workers[k].chunk && w.first == s.workers[k].first && w.end == s.workers[k].end
    requires forall i | 0 <= i < |s.done| && i != s.workers[k].chunk ::
      t.done[i] == s.done[i] && t.flags[i] == s.flags[i] && t.counted[i] == s.counted[i]
    requires WorkerOk(e, t, w)
    ensures ClaimsOk(e, t)
  {
    hide WorkerOk, MarksOk, Apart;
    forall l | 0 <= l < |s.workers| && l != k && Holding(s.workers[l])
      ensures s.workers[l].end <= Chunks(|e.source|) && Quiet(e, s, t, s.workers[l].first, s.workers[l].end)
    {
      ApartPair(e, s, k, l);
      ApartOrder(s.workers[k], s.workers[l]);
    }
    ClaimsKept(e, s, t, k);
  }

  lemma OkAnywhere(e: Env, s: State, t: State, w: Worker)
    requires Shape(e, s) && Shape(e, t) && WorkerOk(e, s, w) && Holding(w) && t.next == s.next
    requires t.part == s.part && t.flags == s.flags && t.done == s.done && t.counted == s.counted
    ensures WorkerOk(e, t, w)
  {
    UserBounds(e, s, w);
    OtherOk(e, s, t, w);
  }

  lemma MarkDiskKeeps(e: Env, s: State, k: nat)
    requires Good(e, s) && Sane(e, s) && Enabled(e, s, MarkDisk(k))
    ensures Good(e, Step(e, s, MarkDisk(k)))
  {
    hide WorkerOk, Limit, ClaimsOk, Total, ChunkOf, Pos;
    var w, t := s.workers[k], Step(e, s, MarkDisk(k));
    HolderOk(e, s, k);
    DiskOk(e, s, w);
    OthersMark(e, s, t, k);
    assert MidMark(t, w.chunk, k);
    OkAnywhere(e, s.(flags := t.flags), t, t.workers[k]);
    MarkClaims(e, s, t, k, t.workers[k]);
  }

  lemma MarkCountKeeps(e: Env, s: State, k: nat)
    requires Good(e, s) && Sane(e, s) && Enabled(e, s, MarkCount(k))
    ensures Good(e, Step(e, s, MarkCount(k)))
  {
    hide WorkerOk, Limit, ClaimsOk, Total, Pos;
    var w, t := s.workers[k], Step(e, s, MarkCount(k));
    HolderOk(e, s, k);
    CountOk(e, s, w);
    OthersMark(e, s, t, k);
    assert MidMark(t, w.chunk, k);
    TotalMark(s.counted, w.chunk, |e.source|);
    OkAnywhere(e, s.(counted := t.counted), t, t.workers[k]);
    MarkClaims(e, s, t, k, t.workers[k]);
  }

  lemma MarkDoneKeeps(e: Env, s: State, k: nat)
    requires Good(e, s) && Sane(e, s) && Enabled(e, s, MarkDone(k))
    ensures Good(e, Step(e, s, MarkDone(k)))
  {
    hide WorkerOk, Limit, ClaimsOk, Total, Pos;
    var w, t := s.workers[k], Step(e, s, MarkDone(k));
    HolderOk(e, s, k);
    DoneOk(e, s, w);
    OthersMark(e, s, t, k);
    OkAnywhere(e, s.(done := t.done), t, t.workers[k]);
    MarkClaims(e, s, t, k, t.workers[k]);
  }

  lemma HashKeeps(e: Env, s: State)
    requires Good(e, s) && Sane(e, s) && Enabled(e, s, HashChunk)
    ensures Good(e, Step(e, s, HashChunk))
  {
    hide WorkerOk, Total;
    var t := Step(e, s, HashChunk);
    StillMid(s, t);
    forall k | 0 <= k < |s.workers| ensures WorkerOk(e, t, t.workers[k]) {
      assert WorkerOk(e, s, s.workers[k]);
      HolderQuiet(e, s, t, s.workers[k]);
      OtherOk(e, s, t, s.workers[k]);
    }
  }

  lemma HolderQuiet(e: Env, s: State, t: State, w: Worker)
    requires Shape(e, s) && Shape(e, t) && WorkerOk(e, s, w) && t.part == s.part && t.flags == s.flags && t.done == s.done && t.counted == s.counted
    ensures Holding(w) ==> w.end <= Chunks(|e.source|) && Quiet(e, s, t, w.first, w.end)
  {}

  lemma StillMid(s: State, t: State)
    requires t.workers == s.workers
    ensures forall i, k | MidMark(s, i, k) :: MidMark(t, i, k)
  {}

  lemma OpenedGood(e: Env, part: Data, flags: seq<bool>, bodies: seq<Data>)
    requires |part| >= |e.source| && |flags| == |bodies| == Chunks(|e.source|) && e.run >= 1
    ensures Good(e, Opened(e, part, flags, bodies))
  {
    hide Total;
  }

  lemma FinishKeeps(e: Env, s: State)
    requires Good(e, s) && Sane(e, s) && Enabled(e, s, Finish)
    ensures Good(e, Step(e, s, Finish))
  {
    hide Total, Limit;
    OpenedGood(e, s.part, s.flags, s.bodies);
    OpenedGood(e, s.part, seq(Chunks(|e.source|), _ => false), s.bodies);
    if !s.failed && e.digest(s.hashed) == e.sha {
      var t := Step(e, s, Finish);
      StillMid(s, t);
      forall k | 0 <= k < |s.workers| ensures WorkerOk(e, t, t.workers[k]) {
        ReadyOk(e, t);
      }
    }
  }

  /** Every step of any worker, the hasher or the process keeps claims, marks and counts. */
  lemma StepKeeps(e: Env, s: State, a: Action)
    requires Good(e, s) && Sane(e, s) && Enabled(e, s, a)
    ensures Good(e, Step(e, s, a))
  {
    hide Sane, Step, Enabled, MarksOk, ClaimsOk;
    match a
    case Claim(k) => ClaimKeeps(e, s, k);
    case Rescan(k) => RescanKeeps(e, s, k);
    case Begin(k) => BeginKeeps(e, s, k);
    case Deliver(k, body) => DeliverKeeps(e, s, k, body);
    case MarkDisk(k) => MarkDiskKeeps(e, s, k);
    case MarkCount(k) => MarkCountKeeps(e, s, k);
    case MarkDone(k) => MarkDoneKeeps(e, s, k);
    case Close(k, accepted) => CloseKeeps(e, s, k, accepted);
    case HashChunk => HashKeeps(e, s);
    case Finish => FinishKeeps(e, s);
    case Crash => CrashKeeps(e, s);
  }

  /** A killed process resumes from its files. */
  lemma CrashKeeps(e: Env, s: State)
    requires Good(e, s) && Sane(e, s) && Enabled(e, s, Crash)
    ensures Good(e, Step(e, s, Crash))
  {
    hide Total;
    OpenedGood(e, s.part, s.flags, s.bodies);
  }

  // ------------------------------------------------------------------
  // Runs
  // ------------------------------------------------------------------

  /** A first start, on a part file of the right size with nothing marked. */
  function Start(e: Env, part: Data): State
    requires |part| == |e.source|
  {
    Opened(e, part, seq(Chunks(|e.source|), _ => false), seq(Chunks(|e.source|), _ => []))
  }

  /** The state after these steps in this order; None when one was not possible. */
  ghost function Execute(e: Env, part: Data, actions: seq<Action>): (r: Option<State>)
    requires |part| == |e.source| && e.run >= 1
    ensures r.Some? ==> Good(e, r.value) && Sane(e, r.value)
  {
    if actions == [] then
      OpenedGood(e, part, seq(Chunks(|e.source|), _ => false), seq(Chunks(|e.source|), _ => []));
      GoodSane(e, Start(e, part));
      Some(Start(e, part))
    else
      var before := Execute(e, part, actions[..|actions| - 1]);
      var a := actions[|actions| - 1];
      if before.Some? && Enabled(e, before.value, a) then
        StepKeeps(e, before.value, a);
        GoodSane(e, Step(e, before.value, a));
        Some(Step(e, before.value, a))
      else None
  }

  /**
   * Whatever the bodies: two workers never hold the same chunk; a claim left
   * without error has none missing; a chunk is counted once.
   */
  lemma ClaimsInRun(e: Env, part: Data, actions: seq<Action>, k: nat, l: nat, i: nat)
    requires |part| == |e.source| && e.run >= 1 && Execute(e, part, actions).Some?
    requires k < |Execute(e, part, actions).value.workers| && l < |Execute(e, part, actions).value.workers|
    ensures var s := Execute(e, part, actions).value; var v, w := s.workers[k], s.workers[l];
      && (k != l && Holding(v) && Holding(w) && v.first <= i < v.end ==> !(w.first <= i < w.end))
      && (v.Scan? && s.target.None? && Step(e, s, Rescan(k)).workers[k] == Ready ==> AllDone(s, v.first, v.end))
      && (v.Transfer? && v.step == 1 ==> v.chunk < |s.counted| && !s.counted[v.chunk])
  {
    hide Execute, MarksOk;
    var s := Execute(e, part, actions).value;
    HolderOk(e, s, k);
    HolderOk(e, s, l);
    if k != l {
      ApartPair(e, s, k, l);
    }
  }

  /**
   * Whatever the bodies: received counts each counted chunk once, the hasher
   * has only passed chunks done, and when no mark is half made memory, disk
   * and count agree.
   */
  lemma CountsInRun(e: Env, part: Data, actions: seq<Action>)
    requires |part| == |e.source| && e.run >= 1 && Execute(e, part, actions).Some?
    ensures var s := Execute(e, part, actions).value;
      && |s.counted| == |s.done| == |s.flags| == Chunks(|e.source|)
      && s.received == Total(s.counted, |e.source|) && AllDone(s, 0, s.hashing)
      && ((forall i, k :: !MidMark(s, i, k)) ==> s.counted == s.done == s.flags && s.received == Total(s.done, |e.source|))
  {
    hide Execute, Total;
    var s := Execute(e, part, actions).value;
    if forall i, k :: !MidMark(s, i, k) {
      assert s.counted == s.done == s.flags;
    }
  }

  // ------------------------------------------------------------------
  // Bodies within the range asked for
  // ------------------------------------------------------------------

  /** The bytes at, and after, this place. */
  predicate Holds(part: Data, at: nat, data: Data) {
    at + |data| <= |part| && part[at..at + |data|] == data
  }

  lemma PutAway(part: Data, pos: nat, body: Data, at: nat, data: Data)
    requires pos <= |part| && Holds(part, at, data) && (at + |data| <= pos || pos + |body| <= at)
    ensures Holds(Put(part, pos, body), at, data)
  {
    var t := Put(part, pos, body);
    assert forall b | at <= b < at + |data| :: t[b] == part[b];
    assert t[at..at + |data|] == part[at..at + |data|];
  }

  lemma PutNext(part: Data, at: nat, got: Data, body: Data)
    requires Holds(part, at, got)
    ensures Holds(Put(part, at + |got|, body), at, got + body)
  {
    var t := Put(part, at + |got|, body);
    forall j | 0 <= j < |got| ensures t[at + j] == got[j] {
      assert part[at..at + |got|][j] == part[at + j];
    }
    assert t[at..at + |got + body|] == got + body;
  }

  /** Part of what a place holds. */
  lemma HoldsSlice(part: Data, at: nat, data: Data, from: nat, to: nat)
    requires Holds(part, at, data) && from <= to <= |data|
    ensures Holds(part, at + from, data[from..to])
  {
    forall j | from <= j < to ensures part[at + j] == data[j] {
      assert part[at..at + |data|][j] == part[at + j];
    }
    assert part[at + from..at + to] == data[from..to];
  }

  /** Chunk i of some file of the source's size. */
  function ChunkAt(e: Env, data: Data, i: nat): Data
    requires i < Chunks(|e.source|) && |data| >= |e.source|
  {
    LimitMonotone(i, i + 1, |e.source|);
    data[Limit(i, |e.source|)..Limit(i + 1, |e.source|)]
  }

  predicate TransferHolds(e: Env, part: Data, w: Worker) {
    w.Transfer? ==> Pos(e, w) <= Limit(w.hi, |e.source|) && Holds(part, Limit(w.lo, |e.source|), w.got)
  }

  predicate MarkHolds(e: Env, s: State, i: nat)
    requires Shape(e, s) && i < |s.flags|
  {
    s.flags[i] ==> ChunkAt(e, s.part, i) == s.bodies[i]
  }

  predicate HashHolds(e: Env, s: State) {
    Holds(s.part, 0, s.hashed) && |s.hashed| == Limit(s.hashing, |e.source|)
  }

  predicate TargetHolds(e: Env, s: State) {
    s.target.Some? ==> s.target.value == s.part && s.hashing == Chunks(|e.source|) && e.digest(s.part) == e.sha
  }

  /** The part file is as the marked chunks, the transfers and the hasher have it. */
  ghost predicate Kept(e: Env, s: State) {
    && Good(e, s) && |s.part| == |e.source|
    && (forall k | 0 <= k < |s.workers| :: TransferHolds(e, s.part, s.workers[k]))
    && (forall i | 0 <= i < |s.flags| :: MarkHolds(e, s, i))
    && HashHolds(e, s) && TargetHolds(e, s)
  }

  /** A body that ends within the range its request asked for. */
  predicate InRange(e: Env, s: State, a: Action)
    requires Sane(e, s) && Enabled(e, s, a)
  {
    a.Deliver? ==> Pos(e, s.workers[a.k]) + |a.body| <= Limit(s.workers[a.k].hi, |e.source|)
  }

  /** Chunks outside those a transfer may still write keep their bytes. */
  lemma DeliverMark(e: Env, s: State, k: nat, body: Data, i: nat)
    requires Kept(e, s) && Sane(e, s) && Enabled(e, s, Deliver(k, body)) && InRange(e, s, Deliver(k, body)) && i < |s.flags|
    ensures MarkHolds(e, Step(e, s, Deliver(k, body)), i)
  {
    hide Kept, Good, Put, Chunks, Limit;
    var w := s.workers[k];
    KeptMark(e, s, i);
    KeptWorker(e, s, k);
    StepKeeps(e, s, Deliver(k, body));
    GoodShape(e, Step(e, s, Deliver(k, body)));
    if s.flags[i] {
      var size := |e.source|;
      Unmarked(e, s, k, i);
      if i < w.chunk { LimitMonotone(i + 1, w.chunk, size); } else { LimitMonotone(w.hi, i, size); }
      LimitMonotone(i, i + 1, size);
      assert Holds(s.part, Limit(i, size), s.bodies[i]);
      PutAway(s.part, Pos(e, w), body, Limit(i, size), s.bodies[i]);
    }
  }

  lemma KeptMark(e: Env, s: State, i: nat)
    requires Kept(e, s) && i < |s.flags|
    ensures Shape(e, s) && MarkHolds(e, s, i)
  {}

  lemma KeptWorker(e: Env, s: State, k: nat)
    requires Kept(e, s) && k < |s.workers|
    ensures Good(e, s) && Sane(e, s) && |s.part| == |e.source|
    ensures Bounds(e, s.workers[k]) && TransferHolds(e, s.part, s.workers[k])
  {
    GoodSane(e, s);
  }

  /** A marked chunk is not one that a transfer still writes. */
  lemma Unmarked(e: Env, s: State, k: nat, i: nat)
    requires Good(e, s) && k < |s.workers| && s.workers[k].Transfer? && s.workers[k].step == 0 && i < |s.flags| && s.flags[i]
    ensures i < s.workers[k].chunk || s.workers[k].hi <= i
  {
    HolderOk(e, s, k);
  }

  /** Bytes of other claims, and of other places, stay. */
  lemma DeliverTransfer(e: Env, s: State, k: nat, body: Data, l: nat)
    requires Kept(e, s) && Sane(e, s) && Enabled(e, s, Deliver(k, body)) && InRange(e, s, Deliver(k, body)) && l < |s.workers|
    ensures var t := Step(e, s, Deliver(k, body)); TransferHolds(e, t.part, t.workers[l])
  {
    hide Kept, Put, Chunks, Limit;
    var size := |e.source|;
    var v, w := s.workers[k], s.workers[l];
    KeptWorker(e, s, k);
    KeptWorker(e, s, l);
    if l == k {
      PutNext(s.part, Limit(v.lo, size), v.got, body);
    } else if w.Transfer? {
      ApartPair(e, s, k, l);
      LimitMonotone(v.lo, v.chunk, size);
      if v.end <= w.first { LimitMonotone(v.hi, w.lo, size); } else { LimitMonotone(w.hi, v.lo, size); }
      PutAway(s.part, Pos(e, v), body, Limit(w.lo, size), w.got);
    }
  }

  lemma GoodShape(e: Env, s: State)
    requires Good(e, s)
    ensures Shape(e, s)
  {}

  /** A transfer never writes before the hasher. */
  lemma Ahead(e: Env, s: State, w: Worker)
    requires Good(e, s) && WorkerOk(e, s, w) && w.Transfer? && w.step == 0 && w.chunk < w.hi
    ensures s.hashing <= w.chunk
  {
    assert !s.done[w.chunk];
  }

  lemma DeliverHash(e: Env, s: State, k: nat, body: Data)
    requires Kept(e, s) && Sane(e, s) && Enabled(e, s, Deliver(k, body)) && InRange(e, s, Deliver(k, body))
    ensures HashHolds(e, Step(e, s, Deliver(k, body)))
  {
    hide Put, Chunks, Limit;
    var w := s.workers[k];
    KeptWorker(e, s, k);
    HolderOk(e, s, k);
    if w.chunk < w.hi {
      Ahead(e, s, w);
      LimitMonotone(s.hashing, w.chunk, |e.source|);
    } else {
      LimitMonotone(w.chunk, w.hi, |e.source|);
    }
    if |body| > 0 {
      PutAway(s.part, Pos(e, w), body, 0, s.hashed);
    } else {
      assert Put(s.part, Pos(e, w), body) == s.part;
    }
  }

  lemma DeliverKept(e: Env, s: State, k: nat, body: Data)
    requires Kept(e, s) && Sane(e, s) && Enabled(e, s, Deliver(k, body)) && InRange(e, s, Deliver(k, body))
    ensures Kept(e, Step(e, s, Deliver(k, body)))
  {
    hide Good, Limit, MarkHolds, TransferHolds, HashHolds;
    var t := Step(e, s, Deliver(k, body));
    StepKeeps(e, s, Deliver(k, body));
    DeliverHash(e, s, k, body);
    LimitMonotone(s.workers[k].hi, Chunks(|e.source|), |e.source|);
    GoodShape(e, t);
    forall l | 0 <= l < |s.workers| ensures TransferHolds(e, t.part, t.workers[l]) {
      DeliverTransfer(e, s, k, body, l);
    }
    forall i | 0 <= i < |s.flags| ensures MarkHolds(e, t, i) {
      DeliverMark(e, s, k, body, i);
    }
  }

  /** Steps that write no byte and mark nothing on disk. */
  lemma StillKept(e: Env, s: State, t: State, k: nat)
    requires Kept(e, s) && Good(e, t) && k < |s.workers| && TransferHolds(e, s.part, t.workers[k])
    requires t.part == s.part && t.flags == s.flags && t.bodies == s.bodies && t.hashing == s.hashing && t.hashed == s.hashed && t.target == s.target
    requires forall l | 0 <= l < |s.workers| && l != k :: t.workers[l] == s.workers[l]
    ensures Kept(e, t)
  {
    hide Good, Limit, TransferHolds;
    GoodShape(e, s);
    GoodShape(e, t);
    forall i | 0 <= i < |t.flags| ensures MarkHolds(e, t, i) {
      KeptMark(e, s, i);
    }
  }

  lemma MarkDiskKept(e: Env, s: State, k: nat)
    requires Kept(e, s) && Sane(e, s) && Enabled(e, s, MarkDisk(k))
    ensures Kept(e, Step(e, s, MarkDisk(k)))
  {
    hide Good, Limit, ChunkAt, ChunkOf;
    var t, w := Step(e, s, MarkDisk(k)), s.workers[k];
    StepKeeps(e, s, MarkDisk(k));
    GoodShape(e, t);
    ChunkMarked(e, s.part, w);
    forall i | 0 <= i < |t.flags| ensures MarkHolds(e, t, i) {
      KeptMark(e, s, i);
    }
    assert TransferHolds(e, s.part, w.(step := 1));
  }

  lemma ChunkMarked(e: Env, part: Data, w: Worker)
    requires w.Transfer? && Bounds(e, w) && Whole(e, w) && TransferHolds(e, part, w) && |part| == |e.source|
    ensures w.chunk < Chunks(|e.source|) && ChunkAt(e, part, w.chunk) == ChunkOf(e, w)
  {
    hide Limit, Chunks;
    var size := |e.source|;
    var base := Limit(w.lo, size);
    LimitMonotone(w.lo, w.chunk, size);
    LimitMonotone(w.chunk, w.chunk + 1, size);
    HoldsSlice(part, base, w.got, Limit(w.chunk, size) - base, Limit(w.chunk + 1, size) - base);
  }

  lemma HashKept(e: Env, s: State)
    requires Kept(e, s) && Sane(e, s) && Enabled(e, s, HashChunk)
    ensures Kept(e, Step(e, s, HashChunk))
  {
    hide Good, Limit, ChunkAt;
    var t := Step(e, s, HashChunk);
    StepKeeps(e, s, HashChunk);
    GoodShape(e, t);
    forall i | 0 <= i < |t.flags| ensures MarkHolds(e, t, i) {
      KeptMark(e, s, i);
    }
    LimitMonotone(s.hashing, s.hashing + 1, |e.source|);
    var a, b := Limit(s.hashing, |e.source|), Limit(s.hashing + 1, |e.source|);
    assert s.part[0..a] + s.part[a..b] == s.part[0..b];
  }

  lemma OpenedKept(e: Env, part: Data, flags: seq<bool>, bodies: seq<Data>)
    requires |part| == |e.source| && |flags| == |bodies| == Chunks(|e.source|) && e.run >= 1
    requires forall i | 0 <= i < |flags| && flags[i] :: ChunkAt(e, part, i) == bodies[i]
    ensures Kept(e, Opened(e, part, flags, bodies))
  {
    hide Good;
    OpenedGood(e, part, flags, bodies);
    assert part[..|e.source|] == part;
  }

  lemma FinishKept(e: Env, s: State)
    requires Kept(e, s) && Sane(e, s) && Enabled(e, s, Finish)
    ensures Kept(e, Step(e, s, Finish))
  {
    hide Good, Limit, Total;
    StepKeeps(e, s, Finish);
    forall i | 0 <= i < |s.flags| && s.flags[i] ensures ChunkAt(e, s.part, i) == s.bodies[i] {
      KeptMark(e, s, i);
    }
    OpenedKept(e, s.part, s.flags, s.bodies);
    OpenedKept(e, s.part, seq(Chunks(|e.source|), _ => false), s.bodies);
    if !s.failed {
      WholeFile(|e.source|);
      assert s.part[0..|s.part|] == s.part;
    }
  }

  lemma WholeFile(size: nat)
    ensures Limit(Chunks(size), size) == size
  {}

  /** Every step whose body stays in its range keeps the part file as the marks have it. */
  lemma StepKept(e: Env, s: State, a: Action)
    requires Kept(e, s) && Sane(e, s) && Enabled(e, s, a) && InRange(e, s, a)
    ensures Kept(e, Step(e, s, a))
  {
    hide Kept, Good, Step, InRange;
    match a
    case Deliver(k, body) => DeliverKept(e, s, k, body);
    case MarkDisk(k) => MarkDiskKept(e, s, k);
    case HashChunk => HashKept(e, s);
    case Finish => FinishKept(e, s);
    case Crash => CrashKept(e, s);
    case _ => MoveKept(e, s, a);
  }

  lemma MoveKept(e: Env, s: State, a: Action)
    requires Kept(e, s) && Sane(e, s) && Enabled(e, s, a)
    requires a.Claim? || a.Rescan? || a.Begin? || a.MarkCount? || a.MarkDone? || a.Close?
    ensures Kept(e, Step(e, s, a))
  {
    hide Kept, Good, Limit, Chunks, Holds;
    KeptWorker(e, s, a.k);
    StepKeeps(e, s, a);
    var w := Step(e, s, a).workers[a.k];
    StartHolds(e, s, w);
    StillKept(e, s, Step(e, s, a), a.k);
  }

  lemma StartHolds(e: Env, s: State, w: Worker)
    requires Shape(e, s)
    ensures w.Transfer? && w.got == [] && w.lo <= w.hi ==> TransferHolds(e, s.part, w)
  {
    if w.Transfer? && w.lo <= w.hi {
      LimitMonotone(w.lo, w.hi, |e.source|);
    }
  }

  lemma CrashKept(e: Env, s: State)
    requires Kept(e, s) && Sane(e, s) && Enabled(e, s, Crash)
    ensures Kept(e, Step(e, s, Crash))
  {
    hide Good, Limit, Total;
    forall i | 0 <= i < |s.flags| && s.flags[i] ensures ChunkAt(e, s.part, i) == s.bodies[i] {
      KeptMark(e, s, i);
    }
    OpenedKept(e, s.part, s.flags, s.bodies);
  }

  /** A run whose bodies all stay in the ranges asked for. */
  ghost predicate RunInRange(e: Env, part: Data, actions: seq<Action>)
    requires |part| == |e.source| && e.run >= 1
  {
    actions != [] ==>
      var (before, a) := (Execute(e, part, actions[..|actions| - 1]), actions[|actions| - 1]);
      RunInRange(e, part, actions[..|actions| - 1]) && (before.Some? && Enabled(e, before.value, a) ==> InRange(e, before.value, a))
  }

  lemma {:induction false} RunKept(e: Env, part: Data, actions: seq<Action>)
    requires |part| == |e.source| && e.run >= 1 && Execute(e, part, actions).Some? && RunInRange(e, part, actions)
    ensures Kept(e, Execute(e, part, actions).value)
    decreases |actions|
  {
    hide Kept, Good, Sane, Enabled, Step, InRange;
    if actions == [] {
      OpenedKept(e, part, seq(Chunks(|e.source|), _ => false), seq(Chunks(|e.source|), _ => []));
    } else {
      RunKept(e, part, actions[..|actions| - 1]);
      StepKept(e, Execute(e, part, actions[..|actions| - 1]).value, actions[|actions| - 1]);
    }
  }

  /**
   * In every run of in-range bodies, whatever their bytes and status: a chunk
   * marked in memory or on disk is right exactly when the body that marked it
   * had the source's bytes there.
   */
  lemma MarksExact(e: Env, part: Data, actions: seq<Action>, i: nat)
    requires |part| == |e.source| && e.run >= 1 && Execute(e, part, actions).Some? && RunInRange(e, part, actions)
    requires i < Chunks(|e.source|)
    ensures var s := Execute(e, part, actions).value;
      && |s.part| == |e.source| && (s.done[i] ==> s.flags[i])
      && (s.flags[i] ==> (ChunkAt(e, s.part, i) == ChunkAt(e, e.source, i) <==> s.bodies[i] == ChunkAt(e, e.source, i)))
  {
    hide Execute, RunInRange, ChunkAt, Total;
    RunKept(e, part, actions);
    KeptMark(e, Execute(e, part, actions).value, i);
  }

  /**
   * In every such run the digest check decides: what was hashed is what the
   * part file holds, a target has the Hub's size and digest, and is the source
   * exactly when each of its chunks came from a right body.
   */
  lemma DigestGuards(e: Env, part: Data, actions: seq<Action>)
    requires |part| == |e.source| && e.run >= 1 && Execute(e, part, actions).Some? && RunInRange(e, part, actions)
    ensures var s := Execute(e, part, actions).value;
      && Limit(s.hashing, |e.source|) <= |s.part| == |e.source| && s.hashed == s.part[..Limit(s.hashing, |e.source|)]
      && (s.target.Some? ==>
            && |s.target.value| == |e.source| && e.digest(s.target.value) == e.sha
            && (s.target.value == e.source <==> forall i | 0 <= i < |s.bodies| :: s.bodies[i] == ChunkAt(e, e.source, i)))
  {
    hide Execute, RunInRange, ChunkAt, Total, Limit;
    RunKept(e, part, actions);
    var s := Execute(e, part, actions).value;
    assert s.part[0..|s.hashed|] == s.part[..|s.hashed|];
    if s.target.Some? {
      forall i | 0 <= i < |s.bodies| ensures s.bodies[i] == ChunkAt(e, s.part, i) {
        assert s.done[i];
        KeptMark(e, s, i);
      }
      ChunksDecide(e, s.part, s.bodies);
    }
  }

  lemma ChunksDecide(e: Env, data: Data, chunks: seq<Data>)
    requires |data| == |e.source| && |chunks| == Chunks(|e.source|)
    requires forall i | 0 <= i < |chunks| :: chunks[i] == ChunkAt(e, data, i)
    ensures data == e.source <==> forall i | 0 <= i < |chunks| :: chunks[i] == ChunkAt(e, e.source, i)
  {
    if forall i | 0 <= i < |chunks| :: chunks[i] == ChunkAt(e, e.source, i) {
      forall b | 0 <= b < |data| ensures data[b] == e.source[b] {
        var i := b / CHUNK;
        SpansTile(|data|, b, i);
        assert chunks[i] == ChunkAt(e, data, i) == ChunkAt(e, e.source, i);
        assert ChunkAt(e, data, i)[b - Limit(i, |data|)] == ChunkAt(e, e.source, i)[b - Limit(i, |data|)];
      }
    }
  }

  // ------------------------------------------------------------------
  // Bodies that are what was asked for, or too short to matter
  // ------------------------------------------------------------------

  /** The source's bytes from chunk lo on, or less than that chunk. */
  predicate FairBody(e: Env, lo: nat, body: Data)
    requires lo < Chunks(|e.source|)
  {
    Holds(e.source, Limit(lo, |e.source|), body) || |body| < Span(lo, |e.source|).1
  }

  predicate Fair(e: Env, s: State, a: Action)
    requires Sane(e, s) && Enabled(e, s, a)
  {
    InRange(e, s, a) && (a.Deliver? ==> FairBody(e, s.workers[a.k].lo, s.workers[a.k].got + a.body))
  }

  predicate WorkerFair(e: Env, w: Worker) {
    w.Transfer? ==> w.lo < Chunks(|e.source|) && FairBody(e, w.lo, w.got)
  }

  predicate MarkRight(e: Env, s: State, i: nat)
    requires Shape(e, s) && i < |s.flags|
  {
    s.flags[i] ==> s.bodies[i] == ChunkAt(e, e.source, i)
  }

  predicate AllFair(e: Env, s: State)
    requires Shape(e, s)
  {
    && (forall k | 0 <= k < |s.workers| :: WorkerFair(e, s.workers[k]))
    && (forall i | 0 <= i < |s.flags| :: MarkRight(e, s, i))
  }

  /** A fair body that reaches the end of a chunk has that chunk right. */
  lemma FairChunk(e: Env, w: Worker)
    requires w.Transfer? && Bounds(e, w) && Whole(e, w) && WorkerFair(e, w)
    ensures w.chunk < Chunks(|e.source|) && ChunkOf(e, w) == ChunkAt(e, e.source, w.chunk)
  {
    hide Limit, Chunks;
    var size := |e.source|;
    var base := Limit(w.lo, size);
    LimitMonotone(w.lo, w.chunk, size);
    LimitMonotone(w.lo + 1, w.chunk + 1, size);
    LimitMonotone(w.chunk, w.chunk + 1, size);
    HoldsSlice(e.source, base, w.got, Limit(w.chunk, size) - base, Limit(w.chunk + 1, size) - base);
  }

  lemma StepFair(e: Env, s: State, a: Action)
    requires Shape(e, s) && AllFair(e, s) && Sane(e, s) && Enabled(e, s, a) && Fair(e, s, a) && Shape(e, Step(e, s, a))
    ensures AllFair(e, Step(e, s, a))
  {
    hide Limit, Chunks, ChunkAt, ChunkOf, Total, Put, FairBody;
    var t := Step(e, s, a);
    forall i | 0 <= i < |t.flags| ensures MarkRight(e, t, i) {
      assert MarkRight(e, s, i);
      if a.MarkDisk? {
        FairChunk(e, s.workers[a.k]);
      }
    }
    forall k | 0 <= k < |t.workers| ensures WorkerFair(e, t.workers[k]) {
      if t.workers[k].Transfer? && t.workers[k].got == [] {
        NothingFair(e, t.workers[k].lo);
      }
      if k < |s.workers| {
        assert WorkerFair(e, s.workers[k]);
      }
    }
  }

  lemma NothingFair(e: Env, lo: nat)
    ensures lo < Chunks(|e.source|) ==> FairBody(e, lo, [])
  {}

  ghost predicate RunFair(e: Env, part: Data, actions: seq<Action>)
    requires |part| == |e.source| && e.run >= 1
  {
    actions != [] ==>
      var (before, a) := (Execute(e, part, actions[..|actions| - 1]), actions[|actions| - 1]);
      RunFair(e, part, actions[..|actions| - 1]) && (before.Some? && Enabled(e, before.value, a) ==> Fair(e, before.value, a))
  }

  lemma {:induction false} RunAllFair(e: Env, part: Data, actions: seq<Action>)
    requires |part| == |e.source| && e.run >= 1 && Execute(e, part, actions).Some? && RunFair(e, part, actions)
    ensures RunInRange(e, part, actions) && AllFair(e, Execute(e, part, actions).value)
    decreases |actions|
  {
    hide MarksOk, ClaimsOk, Sane, Enabled, Step, InRange, AllFair;
    if actions == [] {
      StartFair(e, part);
    } else {
      RunAllFair(e, part, actions[..|actions| - 1]);
      StepFair(e, Execute(e, part, actions[..|actions| - 1]).value, actions[|actions| - 1]);
    }
  }

  lemma StartFair(e: Env, part: Data)
    requires |part| == |e.source| && e.run >= 1
    ensures Shape(e, Start(e, part)) && AllFair(e, Start(e, part))
  {}

  /**
   * In every run of fair bodies, with failed attempts, kills and restarts, a
   * chunk marked in memory or on disk holds the source's bytes.
   */
  lemma MarkedIsRight(e: Env, part: Data, actions: seq<Action>, i: nat)
    requires |part| == |e.source| && e.run >= 1 && Execute(e, part, actions).Some? && RunFair(e, part, actions)
    requires i < Chunks(|e.source|)
    ensures var s := Execute(e, part, actions).value;
      |s.part| == |e.source| && (s.done[i] || s.flags[i] ==> ChunkAt(e, s.part, i) == ChunkAt(e, e.source, i))
  {
    hide Execute, RunInRange, RunFair, ChunkAt, Good;
    RunAllFair(e, part, actions);
    MarksExact(e, part, actions, i);
    var s := Execute(e, part, actions).value;
    assert MarkRight(e, s, i);
  }

  /** The target takes its name only whole, right and with the Hub's digest. */
  lemma RenamedOnlyWhole(e: Env, part: Data, actions: seq<Action>)
    requires |part| == |e.source| && e.run >= 1 && Execute(e, part, actions).Some? && RunFair(e, part, actions)
    ensures var t := Execute(e, part, actions).value.target; t.Some? ==> t.value == e.source && e.digest(t.value) == e.sha
  {
    hide Execute, RunInRange, RunFair, ChunkAt, Total, Limit;
    RunAllFair(e, part, actions);
    DigestGuards(e, part, actions);
    var s := Execute(e, part, actions).value;
    RunKept(e, part, actions);
    if s.target.Some? {
      forall i | 0 <= i < |s.bodies| ensures s.bodies[i] == ChunkAt(e, e.source, i) {
        assert s.done[i] && MarkRight(e, s, i);
      }
    }
  }

  // ------------------------------------------------------------------
  // Bodies longer than the range asked for
  // ------------------------------------------------------------------

  /**
   * Exactly when a body, of any length, leaves the bytes from..to of the part
   * file as they were, and its length: what it writes there is already there.
   */
  lemma DeliverExact(e: Env, s: State, k: nat, body: Data, from: nat, to: nat)
    requires Sane(e, s) && Enabled(e, s, Deliver(k, body)) && from <= to <= |s.part|
    ensures var t, pos := Step(e, s, Deliver(k, body)), Pos(e, s.workers[k]);
      && (t.part[from..to] == s.part[from..to] <==>
            forall b | from <= b < to && pos <= b < pos + |body| :: body[b - pos] == s.part[b])
      && (|t.part| == |s.part| <==> pos + |body| <= |s.part|)
  {
    var t, pos := Step(e, s, Deliver(k, body)), Pos(e, s.workers[k]);
    if t.part[from..to] == s.part[from..to] {
      forall b | from <= b < to && pos <= b < pos + |body| ensures body[b - pos] == s.part[b] {
        assert t.part[from..to][b - from] == s.part[from..to][b - from];
      }
    }
    assert forall b | from <= b < to && !(pos <= b < pos + |body|) :: t.part[b] == s.part[b];
  }

  /** Since the process last started, some body was written past the end of the file. */
  ghost predicate Overran(e: Env, part: Data, actions: seq<Action>)
    requires |part| == |e.source| && e.run >= 1 && Execute(e, part, actions).Some?
  {
    actions != [] &&
    var s, a := Execute(e, part, actions[..|actions| - 1]).value, actions[|actions| - 1];
    !a.Crash? && (a.Finish? ==> !s.failed && e.digest(s.hashed) == e.sha)
    && (Overran(e, part, actions[..|actions| - 1]) || (a.Deliver? && Pos(e, s.workers[a.k]) + |a.body| > |e.source|))
  }

  lemma StepLength(e: Env, s: State, a: Action)
    requires Sane(e, s) && Enabled(e, s, a)
    ensures |Step(e, s, a).part| > |e.source| <==>
      && !a.Crash? && (a.Finish? ==> !s.failed && e.digest(s.hashed) == e.sha)
      && (|s.part| > |e.source| || (a.Deliver? && Pos(e, s.workers[a.k]) + |a.body| > |e.source|))
  {
    hide Total, Limit, ChunkOf;
  }

  /** In every run, whatever the bodies, the file renamed has the Hub's size exactly when no body ran past its end. */
  lemma {:induction false} LengthExact(e: Env, part: Data, actions: seq<Action>)
    requires |part| == |e.source| && e.run >= 1 && Execute(e, part, actions).Some?
    ensures var s := Execute(e, part, actions).value;
      && |s.part| >= |e.source| && (|s.part| == |e.source| <==> !Overran(e, part, actions))
      && (s.target.Some? ==> s.target.value == s.part)
    decreases |actions|
  {
    hide MarksOk, ClaimsOk, Sane, Enabled;
    if actions != [] {
      var prefix, a := actions[..|actions| - 1], actions[|actions| - 1];
      LengthExact(e, part, prefix);
      StepLength(e, Execute(e, part, prefix).value, a);
      StepDigest(e, Execute(e, part, prefix).value, a);
    }
  }

  /** What a body writes over bytes already hashed is what they are. */
  predicate Agrees(e: Env, s: State, a: Action)
    requires Sane(e, s) && Enabled(e, s, a)
  {
    a.Deliver? ==>
      var pos := Pos(e, s.workers[a.k]);
      forall b | 0 <= b < |s.part| && b < Limit(s.hashing, |e.source|) && pos <= b < pos + |a.body| :: a.body[b - pos] == s.part[b]
  }

  lemma HeldPrefix(part: Data, hashed: Data)
    ensures Holds(part, 0, hashed) <==> |hashed| <= |part| && hashed == part[..|hashed|]
  {
    if |hashed| <= |part| {
      assert part[0..|hashed|] == part[..|hashed|];
    }
  }

  lemma DeliverHashExact(e: Env, s: State, k: nat, body: Data)
    requires Sane(e, s) && Enabled(e, s, Deliver(k, body)) && HashHolds(e, s)
    ensures HashHolds(e, Step(e, s, Deliver(k, body))) <==> Agrees(e, s, Deliver(k, body))
  {
    hide Put, Limit, Chunks;
    var t, n := Step(e, s, Deliver(k, body)), |s.hashed|;
    HeldPrefix(s.part, s.hashed);
    HeldPrefix(t.part, s.hashed);
    DeliverExact(e, s, k, body, 0, n);
    assert t.part[0..n] == t.part[..n] && s.part[0..n] == s.part[..n];
  }

  lemma StepHash(e: Env, s: State, a: Action)
    requires Sane(e, s) && Enabled(e, s, a) && HashHolds(e, s)
    ensures HashHolds(e, Step(e, s, a)) <==> Agrees(e, s, a)
  {
    hide Put, Total, ChunkOf;
    match a
    case Deliver(k, body) => DeliverHashExact(e, s, k, body);
    case HashChunk =>
      LimitMonotone(s.hashing, s.hashing + 1, |e.source|);
      var b, c := Limit(s.hashing, |e.source|), Limit(s.hashing + 1, |e.source|);
      assert s.part[0..b] + s.part[b..c] == s.part[0..c];
    case _ =>
  }

  /** At every moment of the run, what was hashed is the start of the part file. */
  ghost predicate HashTrue(e: Env, part: Data, actions: seq<Action>)
    requires |part| == |e.source| && e.run >= 1 && Execute(e, part, actions).Some?
  {
    HashHolds(e, Execute(e, part, actions).value) && (actions != [] ==> HashTrue(e, part, actions[..|actions| - 1]))
  }

  /** No body of the run changed a byte already hashed. */
  ghost predicate RunAgrees(e: Env, part: Data, actions: seq<Action>)
    requires |part| == |e.source| && e.run >= 1 && Execute(e, part, actions).Some?
  {
    actions != [] ==>
      var prefix := actions[..|actions| - 1];
      RunAgrees(e, part, prefix) && Agrees(e, Execute(e, part, prefix).value, actions[|actions| - 1])
  }

  lemma StepDigest(e: Env, s: State, a: Action)
    requires Sane(e, s) && Enabled(e, s, a)
    ensures var t := Step(e, s, a);
      t.target.Some? ==> t.target.value == t.part && t.hashing == Chunks(|e.source|) && e.digest(t.hashed) == e.sha
  {
    hide Total, Limit, ChunkOf, Put;
  }

  lemma StartHash(e: Env, part: Data)
    requires |part| == |e.source| && e.run >= 1
    ensures HashHolds(e, Start(e, part)) && Start(e, part).target.None?
  {}

  /**
   * In every run, whatever the bodies: the hash is of the part file's bytes at
   * every moment exactly when no body changed a byte already hashed; then a
   * target has the Hub's digest, up to the Hub's size.
   */
  lemma {:induction false} HashExact(e: Env, part: Data, actions: seq<Action>)
    requires |part| == |e.source| && e.run >= 1 && Execute(e, part, actions).Some?
    ensures HashTrue(e, part, actions) <==> RunAgrees(e, part, actions)
    ensures var s := Execute(e, part, actions).value;
      s.target.Some? && RunAgrees(e, part, actions) ==> |s.target.value| >= |e.source| && e.digest(s.target.value[..|e.source|]) == e.sha
    decreases |actions|
  {
    hide MarksOk, ClaimsOk, Enabled, Step, Agrees, HashHolds, Start, Limit;
    if actions == [] {
      StartHash(e, part);
    } else {
      var prefix, a := actions[..|actions| - 1], actions[|actions| - 1];
      var s := Execute(e, part, prefix).value;
      HashExact(e, part, prefix);
      if HashHolds(e, s) {
        StepHash(e, s, a);
      }
      StepDigest(e, s, a);
      HashedWhole(e, Step(e, s, a));
    }
  }

  lemma HashedWhole(e: Env, s: State)
    ensures HashHolds(e, s) && s.hashing == Chunks(|e.source|) ==> |s.part| >= |e.source| && s.hashed == s.part[..|e.source|]
  {
    WholeFile(|e.source|);
    HeldPrefix(s.part, s.hashed);
  }

  /** One more step of a run. */
  lemma Next(e: Env, part: Data, actions: seq<Action>, a: Action)
    requires |part| == |e.source| && e.run >= 1 && Execute(e, part, actions).Some?
    ensures var s := Execute(e, part, actions).value;
      Enabled(e, s, a) ==> Execute(e, part, actions + [a]) == Some(Step(e, s, a))
  {
    hide Step, Enabled;
    assert (actions + [a])[..|actions|] == actions;
  }

  /** One worker that asks for the one chunk of a one-byte file. */
  function Single(digest: Data -> int): Env { Env([1], 0, digest, 1, 1) }

  /** The one worker's fetch with this body, its rounds to the end, the hash and the rename. */
  function Script(body: Data): (r: seq<Action>)
    ensures |r| == 13
  {
    [Claim(0), Rescan(0), Begin(0), Deliver(0, body), MarkDisk(0), MarkCount(0), MarkDone(0),
     Close(0, true), Begin(0), Rescan(0), Claim(0), HashChunk, Finish]
  }

  /** The state of the only download of Single with these workers and files. */
  function One(part: Data, marked: nat, next: nat, w: Worker, hashed: Data, target: Option<Data>, body: Data): State {
    State(part, [marked >= 1], [marked >= 3], [marked >= 2], next, if marked >= 2 then 1 else 0, false, [w], |hashed|, hashed, target, [body])
  }

  lemma OneChunk()
    ensures Chunks(1) == 1 && Limit(0, 1) == 0 && Limit(1, 1) == 1
    ensures Total([false], 1) == 0
    ensures Missing([false], 0, 1) == Some((0, 1)) && Missing([true], 0, 1) == None && Missing([true], 1, 1) == None
  {
    assert Total([], 1) == 0;
  }

  function Receiving(chunk: nat, step: nat, got: Data): Worker {
    Transfer(0, 1, 0, 1, 1, 0, 1, chunk, step, got)
  }

  lemma StartOne(digest: Data -> int)
    ensures Start(Single(digest), [0]) == One([0], 0, 0, Ready, [], None, [])
  {
    OneChunk();
    var t := Start(Single(digest), [0]);
    assert t.part == [0] && t.flags == [false] && t.bodies == [[]] && t.workers == [Ready];
  }

  /** One more step of a run whose states are known. */
  lemma Then(e: Env, part: Data, actions: seq<Action>, a: Action, s: State, t: State)
    requires |part| == |e.source| && e.run >= 1 && Execute(e, part, actions) == Some(s)
    requires Sane(e, s) ==> Enabled(e, s, a) && Step(e, s, a) == t
    ensures Execute(e, part, actions + [a]) == Some(t)
  {
    hide Step, Enabled, Sane;
    Next(e, part, actions, a);
  }

  /** The state before step i of Script(body). */
  function Stage(body: Data, i: nat): State
    requires |body| >= 1 && i <= 13
  {
    var part, first := if i <= 3 then [0] else body, if i <= 4 then [] else body[..1];
    var worker :=
      if i == 0 then Ready else if i == 1 then Scan(0, 1, 0) else if i == 2 then Attempt(0, 1, 0, 1, 1)
      else if i == 3 then Receiving(0, 0, []) else if i == 4 then Receiving(0, 0, body)
      else if i == 5 then Receiving(0, 1, body) else if i == 6 then Receiving(0, 2, body) else if i == 7 then Receiving(1, 0, body)
      else if i == 8 then Attempt(0, 1, 0, 1, 2) else if i == 9 then Scan(0, 1, 1) else if i == 10 then Ready else Stopped;
    One(part, if i <= 4 then 0 else i - 4, if i == 0 then 0 else if i <= 10 then 1 else 2, worker,
        if i <= 11 then [] else body[..1], if i <= 12 then None else Some(body), first)
  }

  lemma StageAsk(digest: Data -> int, body: Data, i: nat)
    requires |body| >= 1 && i <= 3
    ensures var e := Single(digest);
      Sane(e, Stage(body, i)) ==> Enabled(e, Stage(body, i), Script(body)[i]) && Step(e, Stage(body, i), Script(body)[i]) == Stage(body, i + 1)
  {
    OneChunk();
    assert Put([0], 0, body) == body && [] + body == body;
  }

  lemma StageMark(digest: Data -> int, body: Data, i: nat)
    requires |body| >= 1 && 4 <= i <= 6
    ensures var e := Single(digest);
      Sane(e, Stage(body, i)) ==> Enabled(e, Stage(body, i), Script(body)[i]) && Step(e, Stage(body, i), Script(body)[i]) == Stage(body, i + 1)
  {
    OneChunk();
  }

  lemma StageEnd(digest: Data -> int, body: Data, i: nat)
    requires |body| >= 2 && digest(body[..1]) == 0 && 7 <= i <= 12
    ensures var e := Single(digest);
      Sane(e, Stage(body, i)) ==> Enabled(e, Stage(body, i), Script(body)[i]) && Step(e, Stage(body, i), Script(body)[i]) == Stage(body, i + 1)
  {
    OneChunk();
    assert [] + body[0..1] == body[..1];
  }

  lemma {:induction false} Staged(digest: Data -> int, body: Data, i: nat)
    requires |body| >= 1 && i <= 13 && (i <= 7 || (|body| >= 2 && digest(body[..1]) == 0))
    ensures Execute(Single(digest), [0], Script(body)[..i]) == Some(Stage(body, i))
  {
    hide Step, Enabled, Sane, Stage, Script, Execute;
    if i == 0 {
      StageStart(digest, body);
    } else {
      Staged(digest, body, i - 1);
      if i <= 4 { StageAsk(digest, body, i - 1); } else if i <= 7 { StageMark(digest, body, i - 1); } else { StageEnd(digest, body, i - 1); }
      Then(Single(digest), [0], Script(body)[..i - 1], Script(body)[i - 1], Stage(body, i - 1), Stage(body, i));
      assert Script(body)[..i - 1] + [Script(body)[i - 1]] == Script(body)[..i];
    }
  }

  lemma StageStart(digest: Data -> int, body: Data)
    requires |body| >= 1
    ensures Execute(Single(digest), [0], Script(body)[..0]) == Some(Stage(body, 0))
  {
    StartOne(digest);
  }

  /** A run in which a one-byte error body marks the chunk, and it is wrong; the body stays in its range. */
  lemma ErrorBodyMarksWrongChunk(digest: Data -> int)
    ensures var e := Single(digest); var actions := Script([2])[..7]; var r := Execute(e, [0], actions);
      && RunInRange(e, [0], actions) && Chunks(|e.source|) == 1
      && r.Some? && r.value.done[0] && r.value.flags[0] && ChunkAt(e, r.value.part, 0) != ChunkAt(e, e.source, 0)
  {
    hide Execute, RunInRange;
    OneChunk();
    Staged(digest, [2], 7);
    ScriptInRange(digest, 7);
    assert Stage([2], 7).part[0] == 2;
  }

  lemma StageInRange(digest: Data -> int, i: nat)
    requires i < 7 && Sane(Single(digest), Stage([2], i)) && Enabled(Single(digest), Stage([2], i), Script([2])[i])
    ensures InRange(Single(digest), Stage([2], i), Script([2])[i])
  {
    hide Sane, Enabled, Chunks, Limit;
    OneChunk();
  }

  lemma {:induction false} ScriptInRange(digest: Data -> int, i: nat)
    requires i <= 7
    ensures RunInRange(Single(digest), [0], Script([2])[..i])
  {
    hide Execute, Enabled, Sane, InRange, Stage;
    if i > 0 {
      ScriptInRange(digest, i - 1);
      Staged(digest, [2], i - 1);
      LastOf(Script([2]), i);
      if Sane(Single(digest), Stage([2], i - 1)) && Enabled(Single(digest), Stage([2], i - 1), Script([2])[i - 1]) {
        StageInRange(digest, i - 1);
      }
    }
  }

  lemma LastOf(actions: seq<Action>, i: nat)
    requires 0 < i <= |actions|
    ensures actions[..i][..i - 1] == actions[..i - 1] && actions[..i][i - 1] == actions[i - 1]
  {}

  /**
   * A run in which a body one byte too long is hashed without that byte and
   * renamed with it: the target's length and digest are not the Hub's.
   */
  lemma LongBodyRenamed()
    ensures var e := Single((d: Data) => if d == [1] then 0 else 1); var r := Execute(e, [0], Script([1, 2]));
      && e.digest(e.source) == e.sha
      && r.Some? && r.value.target == Some([1, 2]) && |e.source| == 1 && e.digest([1, 2]) != e.sha
  {
    hide Execute;
    var digest := (d: Data) => if d == [1] then 0 else 1;
    assert [1, 2][..1] == [1];
    Staged(digest, [1, 2], 13);
    assert Script([1, 2])[..13] == Script([1, 2]);
  }
}
