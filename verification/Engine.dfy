/**
 * The residency allocator (tachyon/src/engine.rs): decoders move between VRAM,
 * pinned host memory and disk under two limits, least recently used first;
 * encoders live in VRAM only. Any device call may fail; the clock is a parameter.
 */
module Engine {
  import opened Options
  import opened Seqs

  // ------------------------------------------------------------------
  // Models
  // ------------------------------------------------------------------

  /**
   * In VRAM: the pinned bytes of the copy a resumed model keeps, and those it
   * would take parked. In the host tier: its pinned bytes.
   */
  datatype Place = Vram(shadow: nat, parked: nat) | Host(bytes: nat) | Disk

  datatype Model = Model(
    name: string, need: nat, pin: bool, keep: Option<nat>,
    used: nat, until: Option<nat>, at: Place,
    vision: Option<nat>, audio: Option<nat>)

  datatype Held = Held(name: string, bytes: nat, pin: bool, keep: Option<nat>, until: Option<nat>)

  /** Failed: a file or device call failed. */
  datatype Outcome = Done | OutOfMemory(need: nat, free: nat) | Failed | NoModel | Unsupported

  function OrNone(x: Option<nat>): nat { if x.Some? then x.value else 0 }

  /** VRAM accounted to a model: its footprint while resident, and its towers. */
  function Use(m: Model): nat {
    (if m.at.Vram? then m.need else 0) + OrNone(m.vision) + OrNone(m.audio)
  }

  /** Pinned host memory of a model. */
  function Pinned(m: Model): nat {
    match m.at
    case Vram(shadow, _) => shadow
    case Host(bytes) => bytes
    case Disk => 0
  }

  function Sum(v: seq<nat>): nat {
    if v == [] then 0 else Sum(v[..|v| - 1]) + v[|v| - 1]
  }

  function Uses(models: seq<Model>): (v: seq<nat>)
    ensures |v| == |models| && forall i | 0 <= i < |v| :: v[i] == Use(models[i])
  {
    seq(|models|, i requires 0 <= i < |models| => Use(models[i]))
  }

  function Pins(models: seq<Model>): (v: seq<nat>)
    ensures |v| == |models| && forall i | 0 <= i < |v| :: v[i] == Pinned(models[i])
  {
    seq(|models|, i requires 0 <= i < |models| => Pinned(models[i]))
  }

  function EncoderBytes(encoders: seq<Held>): nat {
    if encoders == [] then 0 else EncoderBytes(encoders[..|encoders| - 1]) + encoders[|encoders| - 1].bytes
  }

  function Used(models: seq<Model>, encoders: seq<Held>): nat {
    EncoderBytes(encoders) + Sum(Uses(models))
  }

  function Hosted(models: seq<Model>): nat { Sum(Pins(models)) }

  /** What no eviction frees: pinned models and the kept one. */
  function FixedUse(m: Model, j: nat, keep: Option<nat>): nat {
    if m.pin || keep == Some(j) || !m.at.Vram? then Use(m) else 0
  }

  function FixedUses(models: seq<Model>, keep: Option<nat>): (v: seq<nat>)
    ensures |v| == |models| && forall i | 0 <= i < |v| :: v[i] == FixedUse(models[i], i, keep)
  {
    seq(|models|, i requires 0 <= i < |models| => FixedUse(models[i], i, keep))
  }

  function Fixed(models: seq<Model>, encoders: seq<Held>, keep: Option<nat>): nat {
    EncoderBytes(encoders) + Sum(FixedUses(models, keep))
  }

  lemma {:induction false} SumUpdate(v: seq<nat>, i: nat, x: nat)
    requires i < |v|
    ensures Sum(v[i := x]) + v[i] == Sum(v) + x
    decreases |v|
  {
    var n := |v| - 1;
    if i < n {
      assert v[i := x][..n] == v[..n][i := x];
      SumUpdate(v[..n], i, x);
    } else {
      assert v[i := x][..n] == v[..n];
    }
  }

  lemma {:induction false} SumPointwise(v: seq<nat>, w: seq<nat>)
    requires |v| == |w| && forall i | 0 <= i < |v| :: v[i] <= w[i]
    ensures Sum(v) <= Sum(w)
    decreases |v|
  {
    if v != [] {
      SumPointwise(v[..|v| - 1], w[..|w| - 1]);
    }
  }

  lemma {:induction false} SumPositive(v: seq<nat>)
    requires Sum(v) > 0
    ensures exists i :: 0 <= i < |v| && v[i] > 0
    decreases |v|
  {
    if v[|v| - 1] == 0 {
      SumPositive(v[..|v| - 1]);
      var i :| 0 <= i < |v| - 1 && v[..|v| - 1][i] > 0;
      assert v[i] > 0;
    }
  }

  lemma {:induction false} SumPart(v: seq<nat>, i: nat)
    requires i < |v|
    ensures v[i] <= Sum(v)
    decreases |v|
  {
    if i < |v| - 1 {
      SumPart(v[..|v| - 1], i);
    }
  }

  // ------------------------------------------------------------------
  // Least recently used
  // ------------------------------------------------------------------

  predicate MayGo(models: seq<Model>, keep: Option<nat>, j: nat) {
    j < |models| && keep != Some(j) && !models[j].pin && models[j].at.Vram?
  }

  predicate HoldsPinned(models: seq<Model>, j: nat) {
    j < |models| && (models[j].at.Host? || (models[j].at.Vram? && models[j].at.shadow > 0))
  }

  /** j was used before k, or at the same time and is listed first. */
  predicate Older(models: seq<Model>, j: nat, k: nat)
    requires j < |models| && k < |models|
  {
    models[j].used < models[k].used || (models[j].used == models[k].used && j <= k)
  }

  /** The least recently used model that may go. */
  method Oldest(models: seq<Model>, keep: Option<nat>) returns (r: Option<nat>)
    ensures r.None? <==> forall j :: !MayGo(models, keep, j)
    ensures r.Some? ==> MayGo(models, keep, r.value) && forall j | MayGo(models, keep, j) :: Older(models, r.value, j)
  {
    r := None;
    for i := 0 to |models|
      invariant r.None? ==> forall j | 0 <= j < i :: !MayGo(models, keep, j)
      invariant r.Some? ==> MayGo(models, keep, r.value) && r.value < i && forall j | 0 <= j < i && MayGo(models, keep, j) :: Older(models, r.value, j)
    {
      if keep != Some(i) && !models[i].pin && models[i].at.Vram? && (r.None? || models[i].used < models[r.value].used) {
        r := Some(i);
      }
    }
  }

  /** The least recently used model that holds pinned memory. */
  method OldestPinned(models: seq<Model>) returns (r: Option<nat>)
    ensures r.None? <==> forall j :: !HoldsPinned(models, j)
    ensures r.Some? ==> HoldsPinned(models, r.value) && forall j | HoldsPinned(models, j) :: Older(models, r.value, j)
  {
    r := None;
    for i := 0 to |models|
      invariant r.None? ==> forall j | 0 <= j < i :: !HoldsPinned(models, j)
      invariant r.Some? ==> HoldsPinned(models, r.value) && r.value < i && forall j | 0 <= j < i && HoldsPinned(models, j) :: Older(models, r.value, j)
    {
      var holds := models[i].at.Host? || (models[i].at.Vram? && models[i].at.shadow > 0);
      if holds && (r.None? || models[i].used < models[r.value].used) {
        r := Some(i);
      }
    }
  }

  // ------------------------------------------------------------------
  // Moving out of VRAM
  // ------------------------------------------------------------------

  /** n is m, or m with its pinned memory freed: the copy dropped, or parked weights left on disk. */
  predicate Freed(m: Model, n: Model) {
    || n == m
    || (m.at.Vram? && n == m.(at := Vram(0, m.at.parked)))
    || (m.at.Host? && n == m.(at := Disk))
  }

  /** n is m wherever it is, with or without towers: its name, footprint, pin and clock are the same. */
  predicate Stays(m: Model, n: Model) { n == m.(at := n.at, vision := n.vision, audio := n.audio) }

  predicate AllStay(ms: seq<Model>, ns: seq<Model>) {
    |ns| == |ms| && forall j | 0 <= j < |ms| :: Stays(ms[j], ns[j])
  }

  function ButLast(ms: seq<Model>): seq<Model> { if ms == [] then [] else ms[..|ms| - 1] }

  lemma StayButLast(ms: seq<Model>, more: seq<Model>, ns: seq<Model>)
    requires |more| == |ms| + 1 && more[..|ms|] == ms && AllStay(more, ns)
    ensures AllStay(ms, ButLast(ns)) && AllStay(ms, ns[..|ms|])
  {
    forall j | 0 <= j < |ms| ensures Stays(ms[j], ns[j]) {
      assert more[..|ms|][j] == more[j];
    }
  }

  lemma StayThen(a: seq<Model>, b: seq<Model>, c: seq<Model>)
    requires AllStay(a, b) && AllStay(b, c)
    ensures AllStay(a, c)
  {
    forall j | 0 <= j < |a| ensures Stays(a[j], c[j]) {
      assert Stays(a[j], b[j]) && Stays(b[j], c[j]);
    }
  }

  /** Of the encoders es, those not called name that are pinned or not yet overdue are in fs, and no others but name. */
  predicate EncodersStay(es: seq<Held>, fs: seq<Held>, name: Option<string>, now: nat) {
    && (forall e | e in es && Some(e.name) != name && (e.pin || e.until.None? || e.until.value > now) :: e in fs)
    && (forall e | e in fs && Some(e.name) != name :: e in es)
  }

  lemma OthersRetained(es: seq<Held>, name: string, now: nat)
    ensures EncodersStay(es, Retain(es, (e: Held) => e.name != name), Some(name), now)
    ensures forall e | e in es && e.name != name :: e in Retain(es, (e: Held) => e.name != name)
  {
    var q := (e: Held) => e.name != name;
    forall e ensures e in Retain(es, q) <==> e in es && q(e) { RetainOf(es, q, e); }
  }

  lemma OthersExpired(es: seq<Held>, mid: seq<Held>, fs: seq<Held>, name: string, now: nat)
    requires EncodersStay(es, mid, Some(name), now) && EncodersStay(mid, fs, None, now)
    ensures EncodersStay(es, fs, Some(name), now)
  {}

  lemma OthersAdded(es: seq<Held>, mid: seq<Held>, fs: seq<Held>, name: string, now: nat)
    requires EncodersStay(es, mid, Some(name), now) && mid <= fs && (forall e | e in fs[|mid|..] :: e.name == name)
    ensures EncodersStay(es, fs, Some(name), now)
  {
    assert fs == mid + fs[|mid|..];
  }

  /** Only the model that answered has a new clock. */
  lemma AnsweredStay(ms: seq<Model>, mid: seq<Model>, ns: seq<Model>, i: nat, used: nat, until: Option<nat>)
    requires AllStay(ms, mid) && i < |mid| && AllStay(mid[i := mid[i].(used := used, until := until)], ns)
    ensures |ns| == |ms| && Stays(ms[i].(used := ns[i].used, until := ns[i].until), ns[i]) && ns[i].name == mid[i].name
    ensures forall j | 0 <= j < |ns| && j != i :: Stays(ms[j], ns[j])
  {
    forall j | 0 <= j < |ns| && j != i ensures Stays(ms[j], ns[j]) {
      assert Stays(ms[j], mid[j]) && Stays(mid[i := mid[i].(used := used, until := until)][j], ns[j]);
    }
  }

  lemma EncodersTwice(es: seq<Held>, mid: seq<Held>, fs: seq<Held>, now: nat, later: nat)
    requires EncodersStay(es, mid, None, now) && EncodersStay(mid, fs, None, later)
    ensures forall e | e in es && (e.pin || e.until.None? || (e.until.value > now && e.until.value > later)) :: e in fs
    ensures forall e | e in fs :: e in es
  {}

  predicate AllFreed(ms: seq<Model>, ns: seq<Model>) {
    |ms| == |ns| && forall j | 0 <= j < |ms| :: Freed(ms[j], ns[j])
  }

  /** Model i left VRAM with its towers, for the host tier or for disk; the others lost at most pinned memory. */
  predicate Left(ms: seq<Model>, ns: seq<Model>, i: nat) {
    && i < |ms| == |ns| && ms[i].at.Vram?
    && (forall j | 0 <= j < |ms| && j != i :: Freed(ms[j], ns[j]))
    && (ns[i] == ms[i].(at := Disk, vision := None, audio := None)
        || ns[i] == ms[i].(at := Host(ms[i].at.parked), vision := None, audio := None))
  }

  function Holders(models: seq<Model>): (v: seq<nat>)
    ensures |v| == |models| && forall i | 0 <= i < |v| :: v[i] == if HoldsPinned(models, i) then 1 else 0
  {
    seq(|models|, i requires 0 <= i < |models| => if HoldsPinned(models, i) then 1 else 0)
  }

  lemma PinsUpdate(models: seq<Model>, i: nat, m: Model)
    requires i < |models|
    ensures Hosted(models[i := m]) + Pinned(models[i]) == Hosted(models) + Pinned(m)
  {
    SumUpdate(Pins(models), i, Pinned(m));
    assert Pins(models[i := m]) == Pins(models)[i := Pinned(m)];
  }

  lemma HoldersUpdate(models: seq<Model>, i: nat, m: Model)
    requires i < |models| && HoldsPinned(models, i) && !m.at.Host? && (m.at.Vram? ==> m.at.shadow == 0)
    ensures Sum(Holders(models[i := m])) < Sum(Holders(models))
  {
    SumUpdate(Holders(models), i, 0);
    assert Holders(models[i := m]) == Holders(models)[i := 0];
  }

  /** While pinned memory is taken, somebody holds it. */
  lemma SomebodyHolds(models: seq<Model>)
    requires Hosted(models) > 0
    ensures exists j :: HoldsPinned(models, j)
  {
    SumPositive(Pins(models));
    var j :| 0 <= j < |models| && Pins(models)[j] > 0;
    assert HoldsPinned(models, j);
  }

  lemma FreedFurther(ms: seq<Model>, ns: seq<Model>, j: nat)
    requires AllFreed(ms, ns) && HoldsPinned(ns, j)
    ensures ns[j].at.Vram? ==> AllFreed(ms, ns[j := ns[j].(at := Vram(0, ns[j].at.parked))])
    ensures ns[j].at.Host? ==> AllFreed(ms, ns[j := ns[j].(at := Disk)])
  {}

  /** What was freed was less recently used than any holder that kept its memory. */
  predicate FreedInOrder(ms: seq<Model>, ns: seq<Model>)
    requires |ms| == |ns|
  {
    forall i, k | 0 <= i < |ms| && 0 <= k < |ms| && HoldsPinned(ms, k) && ns[i] != ms[i] && ns[k] == ms[k] :: Older(ms, i, k)
  }

  /** Frees pinned memory, least recently used first, until bytes more fit; it never runs out of holders. */
  method FreePinned(ms: seq<Model>, bytes: nat, limit: nat) returns (ns: seq<Model>)
    requires bytes <= limit
    ensures AllFreed(ms, ns) && Hosted(ns) + bytes <= limit
    ensures FreedInOrder(ms, ns)
  {
    hide Hosted, Sum;
    ns := ms;
    while Hosted(ns) + bytes > limit
      invariant AllFreed(ms, ns)
      invariant forall j | 0 <= j < |ms| :: ns[j] != ms[j] ==> !HoldsPinned(ns, j)
      invariant FreedInOrder(ms, ns)
      decreases Sum(Holders(ns))
    {
      SomebodyHolds(ns);
      var r := OldestPinned(ns);
      var j := r.value;
      FreedFurther(ms, ns, j);
      var m := if ns[j].at.Vram? then ns[j].(at := Vram(0, ns[j].at.parked)) else ns[j].(at := Disk);
      HoldersUpdate(ns, j, m);
      ghost var before := ns;
      ns := ns[j := m];
      OrderKept(ms, before, ns, j);
    }
  }

  lemma OrderKept(ms: seq<Model>, before: seq<Model>, ns: seq<Model>, j: nat)
    requires AllFreed(ms, before) && AllFreed(ms, ns) && HoldsPinned(before, j) && ns == before[j := ns[j]]
    requires forall k: nat | HoldsPinned(before, k) :: Older(before, j, k)
    requires forall i | 0 <= i < |ms| :: before[i] != ms[i] ==> !HoldsPinned(before, i)
    requires FreedInOrder(ms, before)
    ensures FreedInOrder(ms, ns)
  {
    forall i, k | 0 <= i < |ms| && 0 <= k < |ms| && HoldsPinned(ms, k) && ns[i] != ms[i] && ns[k] == ms[k] ensures Older(ms, i, k) {
      if k != j {
        assert HoldsPinned(before, k);
        assert before[k] == ms[k];
        if i == j {
          assert Older(before, j, k);
        }
      }
    }
  }

  lemma LeftUses(ms: seq<Model>, ns: seq<Model>, i: nat, encoders: seq<Held>, keep: Option<nat>)
    requires Left(ms, ns, i)
    ensures Used(ns, encoders) + Use(ms[i]) == Used(ms, encoders)
    ensures !ms[i].pin && keep != Some(i) ==> Fixed(ns, encoders, keep) == Fixed(ms, encoders, keep)
  {
    SumUpdate(Uses(ms), i, 0);
    assert Uses(ns) == Uses(ms)[i := 0];
    if !ms[i].pin && keep != Some(i) {
      assert FixedUses(ns, keep) == FixedUses(ms, keep);
    }
  }

  lemma NoneMayGo(ms: seq<Model>, encoders: seq<Held>, keep: Option<nat>)
    ensures Fixed(ms, encoders, keep) <= Used(ms, encoders)
    ensures (forall j :: !MayGo(ms, keep, j)) ==> Fixed(ms, encoders, keep) == Used(ms, encoders)
  {
    SumPointwise(FixedUses(ms, keep), Uses(ms));
    if forall j :: !MayGo(ms, keep, j) {
      forall j | 0 <= j < |ms| ensures FixedUse(ms[j], j, keep) == Use(ms[j]) {
        assert !MayGo(ms, keep, j);
      }
      assert FixedUses(ms, keep) == Uses(ms);
    }
  }

  /** Towers are only where their model is, in VRAM. */
  predicate TowersHome(ms: seq<Model>) {
    forall j | 0 <= j < |ms| :: !ms[j].at.Vram? ==> ms[j].vision.None? && ms[j].audio.None?
  }

  /** Model j of ms was moved out on the way to ns. */
  predicate Gone(ms: seq<Model>, ns: seq<Model>, keep: Option<nat>, j: nat) {
    && j < |ms| == |ns| && MayGo(ms, keep, j) && !ns[j].at.Vram?
    && ns[j] == ms[j].(at := ns[j].at, vision := None, audio := None)
  }

  /** What making room may do: each model stayed, losing at most pinned memory, or is gone. */
  predicate Thinned(ms: seq<Model>, ns: seq<Model>, keep: Option<nat>) {
    |ms| == |ns| && forall j | 0 <= j < |ms| :: Freed(ms[j], ns[j]) || Gone(ms, ns, keep, j)
  }

  /** The models gone are the least recently used ones. */
  predicate GoneInOrder(ms: seq<Model>, ns: seq<Model>, keep: Option<nat>)
    requires |ms| == |ns|
  {
    forall j, k | 0 <= j < |ms| && 0 <= k < |ms| && Gone(ms, ns, keep, j) && MayGo(ms, keep, k) && ns[k].at.Vram? :: Older(ms, j, k)
  }

  /** g is the last model gone, and without it going the request did not fit. */
  predicate NeededLast(ms: seq<Model>, ns: seq<Model>, encoders: seq<Held>, keep: Option<nat>, need: nat, limit: nat, g: nat) {
    && Gone(ms, ns, keep, g)
    && (forall j | 0 <= j < |ms| && Gone(ms, ns, keep, j) :: Older(ms, j, g))
    && Used(ns, encoders) + Use(ms[g]) + need > limit
  }

  /** Nobody went, or no shorter prefix would have done. */
  predicate Shortest(ms: seq<Model>, ns: seq<Model>, encoders: seq<Held>, keep: Option<nat>, need: nat, limit: nat, last: Option<nat>) {
    match last
    case None => forall j | 0 <= j < |ms| :: !Gone(ms, ns, keep, j)
    case Some(g) => NeededLast(ms, ns, encoders, keep, need, limit, g)
  }

  lemma ThinnedMore(ms: seq<Model>, mid: seq<Model>, ns: seq<Model>, keep: Option<nat>, i: nat)
    requires Thinned(ms, mid, keep) && TowersHome(mid) && MayGo(mid, keep, i) && Left(mid, ns, i)
    ensures Thinned(ms, ns, keep) && TowersHome(ns) && Gone(ms, ns, keep, i)
    ensures Use(ms[i]) == Use(mid[i])
    ensures forall j | 0 <= j < |ms| && j != i :: Gone(ms, ns, keep, j) <==> Gone(ms, mid, keep, j)
    ensures forall j | 0 <= j < |ms| :: MayGo(ms, keep, j) && ns[j].at.Vram? ==> MayGo(mid, keep, j) && mid[j].at.Vram? && mid[j].used == ms[j].used
  {
    forall j | 0 <= j < |ms| && j != i ensures Freed(ms[j], ns[j]) || Gone(ms, ns, keep, j) {
      assert Freed(mid[j], ns[j]);
    }
  }

  lemma OrderMore(ms: seq<Model>, mid: seq<Model>, ns: seq<Model>, keep: Option<nat>, i: nat)
    requires Thinned(ms, mid, keep) && TowersHome(mid) && MayGo(mid, keep, i) && Left(mid, ns, i)
    requires GoneInOrder(ms, mid, keep) && forall j | MayGo(mid, keep, j) :: Older(mid, i, j)
    ensures Thinned(ms, ns, keep) && GoneInOrder(ms, ns, keep)
    ensures forall j | 0 <= j < |ms| && Gone(ms, ns, keep, j) :: Older(ms, j, i)
  {
    hide Left, Thinned;
    ThinnedMore(ms, mid, ns, keep, i);
    SameUsed(ms, mid, keep);
    forall j, k | 0 <= j < |ms| && 0 <= k < |ms| && Gone(ms, ns, keep, j) && MayGo(ms, keep, k) && ns[k].at.Vram? ensures Older(ms, j, k) {
      if j == i {
        assert MayGo(mid, keep, k);
      } else {
        assert Gone(ms, mid, keep, j);
      }
    }
    forall j | 0 <= j < |ms| && Gone(ms, ns, keep, j) ensures Older(ms, j, i) {
      if j != i {
        assert Gone(ms, mid, keep, j);
      }
    }
  }

  lemma SameUsed(ms: seq<Model>, ns: seq<Model>, keep: Option<nat>)
    requires Thinned(ms, ns, keep)
    ensures |ms| == |ns| && forall j | 0 <= j < |ms| :: ns[j].used == ms[j].used && ns[j].pin == ms[j].pin
    ensures forall j | MayGo(ns, keep, j) :: MayGo(ms, keep, j)
  {}

  lemma ThinnedSelf(ms: seq<Model>, keep: Option<nat>)
    ensures Thinned(ms, ms, keep) && GoneInOrder(ms, ms, keep)
    ensures forall j | 0 <= j < |ms| :: !Gone(ms, ms, keep, j)
  {}

  function ResidentFlags(models: seq<Model>): (v: seq<nat>)
    ensures |v| == |models| && forall i | 0 <= i < |v| :: v[i] == if models[i].at.Vram? then 1 else 0
  {
    seq(|models|, i requires 0 <= i < |models| => if models[i].at.Vram? then 1 else 0)
  }

  lemma ResidentFewer(ms: seq<Model>, ns: seq<Model>, i: nat)
    requires Left(ms, ns, i)
    ensures Sum(ResidentFlags(ns)) < Sum(ResidentFlags(ms))
  {
    SumUpdate(ResidentFlags(ms), i, 0);
    assert ResidentFlags(ns) == ResidentFlags(ms)[i := 0];
  }

  // ------------------------------------------------------------------
  // What every call keeps
  // ------------------------------------------------------------------

  predicate PinnedHome(ms: seq<Model>) {
    forall j | 0 <= j < |ms| :: ms[j].pin ==> ms[j].at.Vram?
  }

  predicate NamesDistinct(ms: seq<Model>, es: seq<Held>) {
    && (forall i, j | 0 <= i < j < |ms| :: ms[i].name != ms[j].name)
    && (forall i, j | 0 <= i < j < |es| :: es[i].name != es[j].name)
    && (forall i, j | 0 <= i < |ms| && 0 <= j < |es| :: ms[i].name != es[j].name)
  }

  predicate Sound(ms: seq<Model>, es: seq<Held>, vram: nat, host: nat) {
    && Used(ms, es) <= vram && Hosted(ms) <= host
    && TowersHome(ms) && NamesDistinct(ms, es)
  }

  lemma ThinnedKeeps(ms: seq<Model>, ns: seq<Model>, es: seq<Held>, keep: Option<nat>)
    requires Thinned(ms, ns, keep)
    ensures NamesDistinct(ms, es) ==> NamesDistinct(ns, es)
    ensures forall j | 0 <= j < |ms| :: ms[j].pin == ns[j].pin && ms[j].need == ns[j].need && (ms[j].pin || keep == Some(j) ==> (ms[j].at.Vram? <==> ns[j].at.Vram?))
    ensures PinnedHome(ms) ==> PinnedHome(ns)
  {
    forall j | 0 <= j < |ms| ensures ns[j].name == ms[j].name {}
  }

  lemma {:induction false} SumAppend(v: seq<nat>, x: nat)
    ensures Sum(v + [x]) == Sum(v) + x
  {
    assert (v + [x])[..|v|] == v;
  }

  lemma UsedAppend(ms: seq<Model>, m: Model, es: seq<Held>)
    ensures Used(ms + [m], es) == Used(ms, es) + Use(m) && Hosted(ms + [m]) == Hosted(ms) + Pinned(m)
  {
    assert Uses(ms + [m]) == Uses(ms) + [Use(m)];
    assert Pins(ms + [m]) == Pins(ms) + [Pinned(m)];
    SumAppend(Uses(ms), Use(m));
    SumAppend(Pins(ms), Pinned(m));
  }

  lemma UsedUpdate(ms: seq<Model>, i: nat, m: Model, es: seq<Held>)
    requires i < |ms|
    ensures Used(ms[i := m], es) + Use(ms[i]) == Used(ms, es) + Use(m)
    ensures Hosted(ms[i := m]) + Pinned(ms[i]) == Hosted(ms) + Pinned(m)
  {
    SumUpdate(Uses(ms), i, Use(m));
    assert Uses(ms[i := m]) == Uses(ms)[i := Use(m)];
    PinsUpdate(ms, i, m);
  }

  lemma HeldUpdate(es: seq<Held>, e: Held)
    ensures EncoderBytes(es + [e]) == EncoderBytes(es) + e.bytes
  {
    assert (es + [e])[..|es|] == es;
  }

  function Until(now: nat, keep: Option<nat>): Option<nat> {
    if keep.Some? then Some(now + keep.value) else None
  }

  // ------------------------------------------------------------------
  // Dropping models and encoders
  // ------------------------------------------------------------------

  lemma {:induction false} RetainUses(ms: seq<Model>, p: Model -> bool, es: seq<Held>)
    ensures Used(Retain(ms, p), es) <= Used(ms, es) && Hosted(Retain(ms, p)) <= Hosted(ms)
    decreases |ms|
  {
    if ms != [] {
      var init, m := ms[..|ms| - 1], ms[|ms| - 1];
      RetainUses(init, p, es);
      assert ms == init + [m];
      UsedAppend(init, m, es);
      if p(m) {
        UsedAppend(Retain(init, p), m, es);
      } else {
        assert Retain(init, p) + [] == Retain(init, p);
      }
    }
  }

  lemma {:induction false} RetainBytes(es: seq<Held>, p: Held -> bool)
    ensures EncoderBytes(Retain(es, p)) <= EncoderBytes(es)
    decreases |es|
  {
    if es != [] {
      var init, e := es[..|es| - 1], es[|es| - 1];
      RetainBytes(init, p);
      if p(e) {
        HeldUpdate(Retain(init, p), e);
      } else {
        assert Retain(init, p) + [] == Retain(init, p);
      }
    }
  }

  predicate DistinctModels(ms: seq<Model>) { forall i, j | 0 <= i < j < |ms| :: ms[i].name != ms[j].name }

  predicate DistinctHeld(es: seq<Held>) { forall i, j | 0 <= i < j < |es| :: es[i].name != es[j].name }

  lemma {:induction false} RetainDistinct(ms: seq<Model>, p: Model -> bool)
    requires DistinctModels(ms)
    ensures DistinctModels(Retain(ms, p))
    decreases |ms|
  {
    if ms != [] {
      var init, m := ms[..|ms| - 1], ms[|ms| - 1];
      RetainDistinct(init, p);
      forall i | 0 <= i < |Retain(init, p)| ensures Retain(init, p)[i].name != m.name {
        RetainOf(init, p, Retain(init, p)[i]);
      }
    }
  }

  lemma {:induction false} RetainDistinctHeld(es: seq<Held>, p: Held -> bool)
    requires DistinctHeld(es)
    ensures DistinctHeld(Retain(es, p))
    decreases |es|
  {
    if es != [] {
      var init, e := es[..|es| - 1], es[|es| - 1];
      RetainDistinctHeld(init, p);
      forall i | 0 <= i < |Retain(init, p)| ensures Retain(init, p)[i].name != e.name {
        RetainOf(init, p, Retain(init, p)[i]);
      }
    }
  }

  lemma RetainUsed(ms: seq<Model>, es: seq<Held>, p: Model -> bool, q: Held -> bool)
    ensures Used(Retain(ms, p), Retain(es, q)) <= Used(ms, es)
  {
    hide Sum;
    RetainUses(ms, p, es);
    RetainBytes(es, q);
  }

  lemma RetainNames(ms: seq<Model>, es: seq<Held>, ns: seq<Model>, fs: seq<Held>)
    requires NamesDistinct(ms, es) && DistinctModels(ns) && DistinctHeld(fs)
    requires (forall m | m in ns :: m in ms) && (forall e | e in fs :: e in es)
    ensures NamesDistinct(ns, fs)
  {
    forall i, j | 0 <= i < |ns| && 0 <= j < |fs| ensures ns[i].name != fs[j].name {
      assert ns[i] in ms && fs[j] in es;
    }
  }

  /** Dropping models and encoders keeps everything that holds between calls. */
  lemma RetainSound(ms: seq<Model>, es: seq<Held>, p: Model -> bool, q: Held -> bool, vram: nat, host: nat)
    requires Sound(ms, es, vram, host) && PinnedHome(ms)
    ensures Sound(Retain(ms, p), Retain(es, q), vram, host) && PinnedHome(Retain(ms, p))
    ensures forall m | m in Retain(ms, p) :: m in ms && p(m)
    ensures forall e | e in Retain(es, q) :: e in es && q(e)
  {
    hide Hosted, Used, Retain, NamesDistinct;
    var ns, fs := Retain(ms, p), Retain(es, q);
    RetainUses(ms, p, es);
    RetainUsed(ms, es, p, q);
    DistinctParts(ms, es);
    RetainDistinct(ms, p);
    RetainDistinctHeld(es, q);
    forall m | m in ns ensures m in ms && p(m) { RetainOf(ms, p, m); }
    forall e | e in fs ensures e in es && q(e) { RetainOf(es, q, e); }
    RetainNames(ms, es, ns, fs);
    forall i | 0 <= i < |ns| ensures ns[i] in ms {}
  }

  lemma DistinctParts(ms: seq<Model>, es: seq<Held>)
    requires NamesDistinct(ms, es)
    ensures DistinctModels(ms) && DistinctHeld(es)
  {}

  lemma RetainLives(es: seq<Held>, now: nat)
    ensures var fs := Retain(es, (e: Held) => e.pin || e.until.None? || e.until.value > now);
      && EncodersStay(es, fs, None, now)
      && (forall e | e in fs :: e in es && (e.pin || e.until.None? || e.until.value > now))
      && (forall e | e in es :: e in fs <==> e.pin || e.until.None? || e.until.value > now)
  {
    hide Retain;
    var q := (e: Held) => e.pin || e.until.None? || e.until.value > now;
    forall e ensures e in Retain(es, q) <==> e in es && q(e) { RetainOf(es, q, e); }
  }

  /** The first i models after the overdue among them have left. */
  predicate ExpiredTo(ms: seq<Model>, ns: seq<Model>, now: nat, i: nat) {
    && i <= |ms| == |ns|
    && (forall j | 0 <= j < i :: (ns[j] == ms[j] || (Overdue(ms[j], now) && ns[j] == Dropped(ms[j]))) && (ns[j].at == Disk || !Overdue(ns[j], now)))
    && (forall j | i <= j < |ms| :: ns[j] == ms[j])
  }

  lemma ExpiredStay(ms: seq<Model>, ns: seq<Model>, now: nat, i: nat)
    requires ExpiredTo(ms, ns, now, i)
    ensures AllStay(ms, ns)
    ensures forall j | 0 <= j < |ns| :: ns[j] == ms[j] || (Overdue(ms[j], now) && ns[j] == Dropped(ms[j]))
  {}

  lemma DroppedSound(ms: seq<Model>, es: seq<Held>, i: nat, vram: nat, host: nat)
    requires Sound(ms, es, vram, host) && PinnedHome(ms) && i < |ms| && !ms[i].pin
    ensures Sound(ms[i := Dropped(ms[i])], es, vram, host) && PinnedHome(ms[i := Dropped(ms[i])])
  {
    hide Hosted, Used;
    UsedUpdate(ms, i, Dropped(ms[i]), es);
    NamesKept(ms, ms[i := Dropped(ms[i])], es);
  }

  class Engine {
    var models: seq<Model>
    var encoders: seq<Held>
    const vram: nat
    const host: nat

    constructor (vram: nat, host: nat)
      ensures this.vram == vram && this.host == host && models == [] && encoders == [] && Valid()
    {
      this.vram, this.host, this.models, this.encoders := vram, host, [], [];
    }

    /** After every public call: both limits hold, names are unique, towers are home, pinned models are in VRAM. */
    ghost predicate Valid()
      reads this
    {
      Sound(models, encoders, vram, host) && PinnedHome(models)
    }

    /** Moves model i out of VRAM: to the host tier when it fits there, or else to disk. */
    method Evict(i: nat) returns (r: Outcome)
      requires i < |models| && models[i].at.Vram? && Hosted(models) <= host
      modifies this`models
      ensures Left(old(models), models, i) && Hosted(models) <= host
      ensures r == Done || r == Failed
      ensures r == Done ==> models[i].at == if old(models[i].at.parked) <= host then Host(old(models[i].at.parked)) else Disk
    {
      hide Hosted;
      var bytes := models[i].at.parked;
      ghost var ms := models;
      var m := models[i].(at := Disk, vision := None, audio := None);
      PinsUpdate(models, i, m);
      models := models[i := m];
      if bytes > host {
        return Done;
      }
      var ns := FreePinned(models, bytes, host);
      models := ns;
      var parked: bool := *;
      if !parked {
        return Failed;
      }
      PinsUpdate(models, i, m.(at := Host(bytes)));
      models := models[i := m.(at := Host(bytes))];
      return Done;
    }

    /**
     * Makes room for need bytes, moving out the least recently used models
     * that may go. Without a failing call it succeeds exactly when the request
     * fits beside encoders, pinned models and the kept one, and the models it
     * moves out are the shortest such prefix.
     */
    method Room(need: nat, keep: Option<nat>) returns (r: Outcome, ghost last: Option<nat>)
      requires Hosted(models) <= host && TowersHome(models)
      modifies this`models
      ensures Thinned(old(models), models, keep) && Hosted(models) <= host && TowersHome(models)
      ensures Used(models, encoders) <= old(Used(models, encoders))
      ensures r == Done || r == Failed || r.OutOfMemory?
      ensures r == Done ==> Used(models, encoders) + need <= vram
      ensures r != Failed ==> (r == Done <==> old(Fixed(models, encoders, keep)) + need <= vram)
      ensures GoneInOrder(old(models), models, keep)
      ensures Shortest(old(models), models, encoders, keep, need, vram, last)
    {
      hide Hosted, Used, Fixed, Sum, Thinned, Left, GoneInOrder, TowersHome;
      ghost var ms := models;
      last := None;
      ThinnedSelf(ms, keep);
      NoneMayGo(models, encoders, keep);
      while Used(models, encoders) + need > vram
        invariant |models| == |ms| && Thinned(ms, models, keep) && GoneInOrder(ms, models, keep)
        invariant Hosted(models) <= host && TowersHome(models)
        invariant Used(models, encoders) <= Used(ms, encoders)
        invariant Fixed(models, encoders, keep) == Fixed(ms, encoders, keep) <= Used(models, encoders)
        invariant Shortest(ms, models, encoders, keep, need, vram, last)
        decreases Sum(ResidentFlags(models))
      {
        var oldest := Oldest(models, keep);
        NoneMayGo(models, encoders, keep);
        match oldest {
          case None =>
            var used := Used(models, encoders);
            return OutOfMemory(need, if used <= vram then vram - used else 0), last;
          case Some(j) =>
            ghost var mid := models;
            r := Evict(j);
            ThinnedMore(ms, mid, models, keep, j);
            OrderMore(ms, mid, models, keep, j);
            LeftUses(mid, models, j, encoders, keep);
            ResidentFewer(mid, models, j);
            NoneMayGo(models, encoders, keep);
            last := Some(j);
            if r != Done {
              return Failed, last;
            }
        }
      }
      r := Done;
    }

    /** Brings model i into VRAM from wherever it is; a resumed model may keep its pinned copy. */
    method Bring(i: nat, parked: nat) returns (r: Outcome)
      requires i < |models| && TowersHome(models) && Hosted(models) <= host
      requires !models[i].at.Vram? ==> Used(models, encoders) + models[i].need <= vram
      modifies this`models
      ensures |models| == old(|models|) && (r == Done || r == Failed)
      ensures models == old(models)[i := old(models[i]).(at := models[i].at)]
      ensures r == Done ==> models[i].at.Vram?
      ensures r == Failed ==> models[i].at == Disk && !old(models[i].at.Vram?)
      ensures Hosted(models) <= host && TowersHome(models)
      ensures old(models[i].at.Vram?) ==> models == old(models)
      ensures !old(models[i].at.Vram?) ==> Used(models, encoders) <= old(Used(models, encoders)) + models[i].need
    {
      hide Hosted, Used;
      var m := models[i];
      match m.at {
        case Vram(_, _) => r := Done;
        case Host(bytes) =>
          var shadow: nat, resumed: bool := *, *;
          shadow := if shadow <= bytes then shadow else bytes;
          var at := if resumed then Vram(shadow, bytes) else Disk;
          UsedUpdate(models, i, m.(at := at), encoders);
          models := models[i := m.(at := at)];
          r := if resumed then Done else Failed;
        case Disk =>
          var read: bool := *;
          var at := if read then Vram(0, parked) else Disk;
          UsedUpdate(models, i, m.(at := at), encoders);
          models := models[i := m.(at := at)];
          r := if read then Done else Failed;
      }
    }

    /** Brings model i into VRAM, making room first when it is out. */
    method MakeResident(i: nat, parked: nat) returns (r: Outcome)
      requires i < |models| && Sound(models, encoders, vram, host)
      modifies this`models
      ensures |models| == old(|models|) && Sound(models, encoders, vram, host)
      ensures forall j | 0 <= j < |models| && j != i :: Freed(old(models[j]), models[j]) || Gone(old(models), models, Some(i), j)
      ensures models[i] == old(models[i]).(at := models[i].at)
      ensures r == Done ==> models[i].at.Vram?
      ensures old(models[i].at.Vram?) ==> models[i].at.Vram?
      ensures AllStay(old(models), models)
    {
      hide Hosted, Used;
      ghost var ms := models;
      ThinnedSelf(ms, Some(i));
      if !models[i].at.Vram? {
        ghost var last;
        r, last := Room(models[i].need, Some(i));
        ThinnedKeeps(ms, models, encoders, Some(i));
        if r != Done {
          return;
        }
      }
      ghost var mid := models;
      r := Bring(i, parked);
      NamesKept(mid, models, encoders);
    }

    /** Unloads model or encoder name, wherever it is. */
    method Unload(name: string) returns (found: bool)
      requires Valid()
      modifies this
      ensures Valid() && forall m | m in models :: m.name != name
      ensures forall e | e in encoders :: e.name != name
      ensures models == old(Retain(models, (m: Model) => m.name != name)) && encoders == old(Retain(encoders, (e: Held) => e.name != name))
      ensures found == (|models| + |encoders| < old(|models| + |encoders|))
    {
      hide Hosted, Used;
      RetainSound(models, encoders, (m: Model) => m.name != name, (e: Held) => e.name != name, vram, host);
      var before := |models| + |encoders|;
      models := Retain(models, (m: Model) => m.name != name);
      encoders := Retain(encoders, (e: Held) => e.name != name);
      found := |models| + |encoders| < before;
    }

    /** Sends to disk every model whose keep-alive has run out but pinned ones, and drops such encoders. */
    method Expire(now: nat) returns (r: Outcome)
      requires Valid()
      modifies this
      ensures Valid() && |models| == old(|models|) && (r == Done || r == Failed)
      ensures forall j | 0 <= j < |models| ::
        models[j] == old(models[j]) || (Overdue(old(models[j]), now) && models[j] == Dropped(old(models[j])))
      ensures r == Done ==> forall j | 0 <= j < |models| :: models[j].at == Disk || !Overdue(models[j], now)
      ensures AllStay(old(models), models) && EncodersStay(old(encoders), encoders, None, now)
      ensures encoders == old(encoders) || forall e | e in encoders :: e.pin || e.until.None? || e.until.value > now
      ensures r == Done ==> forall e | e in old(encoders) :: e in encoders <==> e.pin || e.until.None? || e.until.value > now
    {
      hide Hosted, Used, Sound, PinnedHome, NamesDistinct, Retain;
      ghost var ms := models;
      var freed := false;
      for i := 0 to |models|
        invariant Valid() && |models| == |ms| && encoders == old(encoders) && ExpiredTo(ms, models, now, i)
      {
        var m := models[i];
        if m.at != Disk && !m.pin && m.until.Some? && m.until.value <= now {
          if m.at.Vram? {
            var stopped: bool := *;
            if !stopped {
              ExpiredStay(ms, models, now, i);
              return Failed;
            }
          }
          DroppedSound(models, encoders, i, vram, host);
          models := models[i := Dropped(m)];
          freed := true;
        }
      }
      ExpiredStay(ms, models, now, |ms|);
      var before := |encoders|;
      RetainAll(models, (m: Model) => true);
      RetainSound(models, encoders, (m: Model) => true, (e: Held) => e.pin || e.until.None? || e.until.value > now, vram, host);
      RetainLives(encoders, now);
      encoders := Retain(encoders, (e: Held) => e.pin || e.until.None? || e.until.value > now);
      var trimmed: bool := *;
      r := if (freed || |encoders| < before) && !trimmed then Failed else Done;
    }

    /** Loads a model or an encoder as name, making room; whatever had that name is unloaded first. */
    method Load(name: string, found: Directory, pin: bool, keep: Option<nat>, now: nat) returns (r: Outcome)
      requires Valid()
      modifies this
      ensures Valid()
      ensures r == Done && found.DecoderDir? ==>
        models != [] && Stays(Model(name, found.need, pin, keep, now, Until(now, keep), Disk, None, None), models[|models| - 1]) && models[|models| - 1].at.Vram?
      ensures r == Done && found.EncoderDir? ==> exists e | e in encoders :: e.name == name && e.pin == pin
      ensures r != Done ==> (forall m | m in models :: m.name != name) && (forall e | e in encoders :: e.name != name)
      ensures AllStay(old(Retain(models, (m: Model) => m.name != name)), if r == Done && found.DecoderDir? then ButLast(models) else models)
      ensures EncodersStay(old(encoders), encoders, Some(name), now)
    {
      hide Hosted, Used, Retain;
      OthersRetained(encoders, name, now);
      var _ := Unload(name);
      ghost var ms, es := models, encoders;
      r := Expire(now);
      OthersExpired(old(encoders), es, encoders, name, now);
      StillAbsent(ms, models, es, encoders, name);
      if r != Done {
        return;
      }
      match found {
        case Unreadable => r := Failed;
        case EncoderDir(footprint, bytes) =>
          ghost var ns, fs := models, encoders;
          r := LoadEncoder(name, footprint, bytes, pin, keep, now);
          StayThen(ms, ns, models);
          OthersAdded(old(encoders), fs, encoders, name, now);
        case DecoderDir(need, parked) =>
          ghost var ns := models;
          r := LoadDecoder(name, need, parked, pin, keep, now);
          StayThen(ms, ns, if r == Done then ButLast(models) else models);
      }
    }

    method LoadDecoder(name: string, need: nat, parked: nat, pin: bool, keep: Option<nat>, now: nat) returns (r: Outcome)
      requires Valid() && Absent(models, encoders, name)
      modifies this`models
      ensures Valid()
      ensures r == Done ==>
        models != [] && Stays(Model(name, need, pin, keep, now, Until(now, keep), Disk, None, None), models[|models| - 1]) && models[|models| - 1].at.Vram?
      ensures r != Done ==> Absent(models, encoders, name)
      ensures AllStay(old(models), if r == Done then ButLast(models) else models)
    {
      hide Hosted, Used;
      ghost var ms := models;
      var m := Model(name, need, pin, keep, now, Until(now, keep), Disk, None, None);
      UsedAppend(models, m, encoders);
      models := models + [m];
      var i := |models| - 1;
      assert Sound(models, encoders, vram, host);
      ghost var mid := models;
      r := MakeResident(i, parked);
      OthersPinned(ms, m, models, i);
      StayButLast(ms, mid, models);
      if r != Done {
        UsedAppend(models[..i], models[i], encoders);
        assert models == models[..i] + [models[i]];
        models := models[..i];
      }
    }

    /** An encoder takes at most the room its footprint asked for. */
    method LoadEncoder(name: string, footprint: nat, bytes: nat, pin: bool, keep: Option<nat>, now: nat) returns (r: Outcome)
      requires Valid() && Absent(models, encoders, name)
      modifies this
      ensures Valid()
      ensures r == Done ==> exists e | e in encoders :: e.name == name && e.pin == pin
      ensures r != Done ==> Absent(models, encoders, name)
      ensures AllStay(old(models), models)
      ensures encoders == old(encoders) + if r == Done then [Held(name, if bytes <= footprint then bytes else footprint, pin, keep, Until(now, keep))] else []
    {
      hide Hosted, Used, Thinned, GoneInOrder, Shortest, NamesDistinct, TowersHome, PinnedHome;
      ghost var ms, last := models, None;
      r, last := Room(footprint, None);
      ThinnedKeeps(ms, models, encoders, None);
      ThinnedNames(ms, models, None, name);
      ThinnedStay(ms, models, None);
      if r != Done {
        return;
      }
      var read: bool := *;
      if !read {
        return Failed;
      }
      var e := Held(name, if bytes <= footprint then bytes else footprint, pin, keep, Until(now, keep));
      HeldSound(models, encoders, e, vram, host);
      encoders := encoders + [e];
      assert e in encoders;
    }

    /** Model i's vision or audio tower, brought beside it in VRAM if it is not there. */
    method OpenTower(i: nat, vision: bool, tower: Option<nat>) returns (r: Outcome)
      requires Valid() && i < |models| && models[i].at.Vram?
      modifies this`models
      ensures Valid() && |models| == old(|models|) && models[i].at.Vram? && AllStay(old(models), models)
      ensures r == Done ==> if vision then models[i].vision.Some? else models[i].audio.Some?
    {
      hide Hosted, Used, Thinned, GoneInOrder, Shortest, NamesDistinct;
      if (if vision then models[i].vision.Some? else models[i].audio.Some?) {
        return Done;
      }
      if tower.None? {
        return Unsupported;
      }
      var built: bool := *;
      if !built {
        return Failed;
      }
      ghost var ms, last := models, None;
      r, last := Room(tower.value, Some(i));
      ThinnedKeeps(ms, models, encoders, Some(i));
      ThinnedOne(ms, models, Some(i), i);
      ThinnedStay(ms, models, Some(i));
      if r == Done {
        var m := if vision then models[i].(vision := tower) else models[i].(audio := tower);
        UsedUpdate(models, i, m, encoders);
        ghost var mid := models;
        models := models[i := m];
        NamesKept(mid, models, encoders);
      }
    }

    /** The towers that a request's images and clips need. */
    method OpenTowers(i: nat, asks: seq<(bool, Option<nat>)>) returns (r: Outcome)
      requires Valid() && i < |models| && models[i].at.Vram?
      modifies this`models
      ensures Valid() && |models| == old(|models|) && models[i].at.Vram? && AllStay(old(models), models)
    {
      r := Done;
      for k := 0 to |asks|
        invariant Valid() && |models| == old(|models|) && models[i].at.Vram? && AllStay(old(models), models)
      {
        ghost var ms := models;
        r := OpenTower(i, asks[k].0, asks[k].1);
        StayThen(old(models), ms, models);
        if r != Done {
          return;
        }
      }
    }

    /** Starts an answer by model name: from here the stream holds the engine, and its model is in VRAM. */
    method Chat(name: string, asks: seq<(bool, Option<nat>)>, parked: nat, now: nat) returns (r: Outcome, stream: Option<nat>)
      requires Valid()
      modifies this
      ensures Valid()
      ensures r == Done <==> stream.Some?
      ensures stream.Some? ==> stream.value < |models| && models[stream.value].name == name && models[stream.value].at.Vram?
      ensures AllStay(old(models), models) && EncodersStay(old(encoders), encoders, None, now)
    {
      hide Hosted, Used;
      stream := None;
      r := Expire(now);
      if r != Done {
        return;
      }
      var i := 0;
      while i < |models| && models[i].name != name
        invariant i <= |models|
      {
        i := i + 1;
      }
      if i == |models| {
        return NoModel, None;
      }
      ghost var ms := models;
      r := MakeResident(i, parked);
      PinnedStill(ms, models, i);
      StayThen(old(models), ms, models);
      if r != Done {
        return;
      }
      ms := models;
      r := OpenTowers(i, asks);
      StayThen(old(models), ms, models);
      if r != Done {
        return;
      }
      var fed: bool := *;
      if !fed {
        return Failed, None;
      }
      return Done, Some(i);
    }

    /** The decoder's next token, which may fail; only a model in VRAM has a decoder. */
    method NextToken(i: nat) returns (token: Option<nat>)
      requires i < |models| && models[i].at.Vram?
    {
      var failed: bool := *;
      var t: nat := *;
      token := if failed then None else Some(t);
    }

    /** The end of an answer: the model in VRAM starts its keep-alive, and what is overdue by then leaves. */
    method EndAnswer(i: nat, keep: Option<nat>, now: nat, later: nat)
      requires Valid() && i < |models| && models[i].at.Vram?
      modifies this
      ensures Valid() && |models| == old(|models|) && models[i].name == old(models[i].name)
      ensures models[i].used == now && models[i].until == Until(now, keep)
      ensures old(models[i].pin) || keep.None? || now + keep.value > later ==> models[i].at.Vram?
      ensures AllStay(old(models[i := models[i].(used := now, until := Until(now, keep))]), models)
      ensures EncodersStay(old(encoders), encoders, None, later)
    {
      hide Hosted, Used;
      var m := models[i].(used := now, until := Until(now, keep));
      UsedUpdate(models, i, m, encoders);
      ghost var mid := models;
      models := models[i := m];
      NamesKept(mid, models, encoders);
      var _ := Expire(later);
    }

    /**
     * A whole answer: the stream starts, gives up to left tokens until an end
     * token, a failure or the reader's leave, and is dropped. Every token, and
     * the drop, finds the model in VRAM; after it the model has the keep-alive
     * from the end of the answer.
     */
    method Answer(name: string, asks: seq<(bool, Option<nat>)>, parked: nat, left: nat, ends: set<nat>, keep: Option<nat>, now: nat, touched: nat, later: nat)
        returns (r: Outcome, tokens: nat)
      requires Valid()
      modifies this
      ensures Valid() && tokens <= left
      ensures r == Done ==> exists i :: 0 <= i < |models| && KeptAlive(models[i], name, keep, touched, later)
      ensures |models| == old(|models|)
      ensures forall j | 0 <= j < |models| && models[j].name != name :: Stays(old(models[j]), models[j])
      ensures forall j | 0 <= j < |models| :: Stays(old(models[j]).(used := models[j].used, until := models[j].until), models[j])
      ensures forall e | e in old(encoders) && (e.pin || e.until.None? || (e.until.value > now && e.until.value > later)) :: e in encoders
      ensures forall e | e in encoders :: e in old(encoders)
    {
      tokens := 0;
      var stream;
      r, stream := Chat(name, asks, parked, now);
      if stream.None? {
        return;
      }
      var i, open := stream.value, true;
      ghost var ms := models;
      while open && tokens < left
        invariant Valid() && models == ms && tokens <= left && EncodersStay(old(encoders), encoders, None, now)
        decreases left - tokens, open
      {
        var token := NextToken(i);
        var leaves: bool := *;
        if token.None? || token.value in ends || leaves {
          open := false;
        } else {
          tokens := tokens + 1;
        }
      }
      ghost var es := encoders;
      EndAnswer(i, keep, touched, later);
      AnsweredStay(old(models), ms, models, i, touched, Until(touched, keep));
      EncodersTwice(old(encoders), es, encoders, now, later);
    }
  }

  /** What a directory holds: neither kind, an encoder, or a decoder. */
  datatype Directory = Unreadable | EncoderDir(footprint: nat, bytes: nat) | DecoderDir(need: nat, parked: nat)

  predicate Absent(ms: seq<Model>, es: seq<Held>, name: string) {
    (forall m | m in ms :: m.name != name) && (forall e | e in es :: e.name != name)
  }

  lemma StillAbsent(ms: seq<Model>, ns: seq<Model>, es: seq<Held>, fs: seq<Held>, name: string)
    requires Absent(ms, es, name) && |ns| == |ms| && (forall e | e in fs :: e in es)
    requires forall j | 0 <= j < |ns| :: ns[j].name == ms[j].name
    ensures Absent(ns, fs, name)
  {
    forall m | m in ns ensures m.name != name {
      var j :| 0 <= j < |ns| && ns[j] == m;
      assert ms[j] in ms;
    }
  }

  lemma HeldSound(ms: seq<Model>, es: seq<Held>, e: Held, vram: nat, host: nat)
    requires Sound(ms, es, vram, host) && Absent(ms, es, e.name) && Used(ms, es) + e.bytes <= vram
    ensures Sound(ms, es + [e], vram, host)
  {
    HeldUpdate(es, e);
    forall i | 0 <= i < |ms| ensures ms[i].name != e.name { assert ms[i] in ms; }
    forall j | 0 <= j < |es| ensures es[j].name != e.name { assert es[j] in es; }
  }

  lemma ThinnedStay(ms: seq<Model>, ns: seq<Model>, keep: Option<nat>)
    requires Thinned(ms, ns, keep)
    ensures AllStay(ms, ns)
  {}

  lemma ThinnedOne(ms: seq<Model>, ns: seq<Model>, keep: Option<nat>, i: nat)
    requires Thinned(ms, ns, keep) && keep == Some(i) && i < |ms|
    ensures |ns| == |ms| && Freed(ms[i], ns[i])
  {}

  lemma PinnedStill(ms: seq<Model>, ns: seq<Model>, i: nat)
    requires PinnedHome(ms) && i < |ms| == |ns| && ns[i] == ms[i].(at := ns[i].at) && (ms[i].at.Vram? ==> ns[i].at.Vram?)
    requires forall j | 0 <= j < |ms| && j != i :: Freed(ms[j], ns[j]) || Gone(ms, ns, Some(i), j)
    ensures PinnedHome(ns)
  {}

  lemma ThinnedNames(ms: seq<Model>, ns: seq<Model>, keep: Option<nat>, name: string)
    requires Thinned(ms, ns, keep) && forall m | m in ms :: m.name != name
    ensures forall m | m in ns :: m.name != name
  {
    forall m | m in ns ensures m.name != name {
      var j :| 0 <= j < |ns| && ns[j] == m;
      assert ms[j] in ms;
    }
  }

  lemma OthersPinned(ms: seq<Model>, m: Model, ns: seq<Model>, i: nat)
    requires i == |ms| && |ns| == i + 1 && PinnedHome(ms) && forall x | x in ms :: x.name != m.name
    requires forall j | 0 <= j < i :: Freed((ms + [m])[j], ns[j]) || Gone(ms + [m], ns, Some(i), j)
    ensures PinnedHome(ns[..i]) && forall x | x in ns[..i] :: x.name != m.name
  {
    forall x | x in ns[..i] ensures x.name != m.name {
      var j :| 0 <= j < i && ns[j] == x;
      assert ms[j] in ms && (ms + [m])[j] == ms[j];
    }
    forall j | 0 <= j < i ensures ns[j].pin ==> ns[j].at.Vram? {
      assert (ms + [m])[j] == ms[j];
    }
  }

  /** In use until touched, kept for as long as keep says, and in VRAM if that is past later. */
  predicate KeptAlive(m: Model, name: string, keep: Option<nat>, touched: nat, later: nat) {
    && m.name == name && m.used == touched && m.until == Until(touched, keep)
    && (m.pin || keep.None? || touched + keep.value > later ==> m.at.Vram?)
  }

  predicate Overdue(m: Model, now: nat) { !m.pin && m.until.Some? && m.until.value <= now }

  function Dropped(m: Model): Model { m.(at := Disk, vision := None, audio := None) }

  lemma NamesKept(ms: seq<Model>, ns: seq<Model>, es: seq<Held>)
    requires NamesDistinct(ms, es) && |ms| == |ns| && forall j | 0 <= j < |ms| :: ns[j].name == ms[j].name
    ensures NamesDistinct(ns, es)
  {}
}
