/** The active speaker detector: levels that fade with silence, a sliding window, a threshold
    and a hysteresis. Levels are reals in dBFS, times are whole milliseconds. */
module SpeakerDetector {
  import opened Text

  datatype Level = Level(dbfs: real, when: int)

  /** when is None for the zero time, which stands for "now". */
  datatype Sample = Sample(peer: string, dbfs: real, when: Option<int>)

  /** The level a silent peer still has: it fades by 3 dB every 100 ms. */
  function EffectiveLevel(e: Level, now: int): real {
    var silent := now - e.when;
    if silent <= 0 then e.dbfs else e.dbfs - silent as real * 0.03
  }

  const WINDOW := 2000

  const TWO_64 := 0x1_0000_0000_0000_0000
  const TWO_320 := TWO_64 * TWO_64 * TWO_64 * TWO_64 * TWO_64

  /** The lowest finite double, -(2^53 - 1) * 2^971: where the search for the loudest peer starts. */
  const FLOOR := (-0x1F_FFFF_FFFF_FFFF * 0x800 * TWO_320 * TWO_320 * TWO_320) as real

  datatype State = State(levels: map<string, Level>, current: string, since: Option<int>)

  datatype Settings = Settings(threshold: real, hysteresis: int)

  predicate Recent(levels: map<string, Level>, id: string, now: int) {
    id in levels && now - levels[id].when <= WINDOW
  }

  /** Nobody heard within the window is louder than id. */
  ghost predicate Loudest(levels: map<string, Level>, id: string, now: int) {
    && Recent(levels, id, now)
    && forall other | Recent(levels, other, now) ::
         EffectiveLevel(levels[other], now) <= EffectiveLevel(levels[id], now)
  }

  ghost predicate AllBelow(levels: map<string, Level>, bound: real, now: int) {
    forall other | Recent(levels, other, now) :: EffectiveLevel(levels[other], now) < bound
  }

  predicate HysteresisPassed(since: Option<int>, hysteresis: int, clock: int) {
    since.None? || clock - since.value >= hysteresis
  }

  /** The search finds nobody: nobody heard within the window rises above the value it starts from. */
  ghost predicate Quiet(levels: map<string, Level>, now: int) {
    forall other | Recent(levels, other, now) :: EffectiveLevel(levels[other], now) <= FLOOR
  }

  /** One Push: exactly what it may do, over every order in which a Go map can be walked. A threshold so low
      that the search's starting value reaches it makes nobody the speaker when the search finds nobody. */
  ghost predicate PushStep(c: Settings, s: State, x: Sample, clock: int, s': State, speaker: string, changed: bool) {
    var now := if x.when.Some? then x.when.value else clock;
    var levels := s.levels[x.peer := Level(x.dbfs, now)];
    && s' == (if changed then State(levels, speaker, Some(now)) else s.(levels := levels))
    && (!changed ==> speaker == "")
    && Decides(c, levels, s.current, HysteresisPassed(s.since, c.hysteresis, clock), now, speaker, changed)
  }

  ghost predicate Decides(c: Settings, levels: map<string, Level>, current: string, passed: bool, now: int,
                          speaker: string, changed: bool) {
    if c.threshold <= FLOOR && Quiet(levels, now) then
      speaker == "" && (changed <==> current != "" && passed)
    else if changed then
      && speaker != current && passed
      && Loudest(levels, speaker, now)
      && EffectiveLevel(levels[speaker], now) >= c.threshold
    else
      || !passed
      || AllBelow(levels, c.threshold, now)
      || (Loudest(levels, current, now) && EffectiveLevel(levels[current], now) >= c.threshold)
  }

  function ForgetStep(s: State, peer: string, clock: int): State {
    var levels := map id | id in s.levels && id != peer :: s.levels[id];
    if s.current == peer then State(levels, "", Some(clock)) else s.(levels := levels)
  }

  class Detector {
    var levels: map<string, Level>
    var current: string
    var currentSince: Option<int>
    const settings: Settings

    constructor (threshold: real, hysteresis: int)
      ensures View() == State(map[], "", None) && settings == Settings(threshold, hysteresis)
    {
      levels, current, currentSince := map[], "", None;
      settings := Settings(threshold, hysteresis);
    }

    function View(): State
      reads this
    {
      State(levels, current, currentSince)
    }

    /** clock is the one reading of the clock that this call makes. */
    method Push(x: Sample, clock: int) returns (newSpeaker: string, changed: bool)
      modifies this
      ensures PushStep(settings, old(View()), x, clock, View(), newSpeaker, changed)
    {
      var now := if x.when.Some? then x.when.value else clock;
      levels := levels[x.peer := Level(x.dbfs, now)];

      var loudest, level := FindLoudest(now);
      if level < settings.threshold {
        return "", false;
      }
      if loudest == current {
        return "", false;
      }
      if currentSince.Some? && clock - currentSince.value < settings.hysteresis {
        return "", false;
      }
      current := loudest;
      currentSince := Some(now);
      return loudest, true;
    }

    /** The loop over the map, in an order nobody chooses: the first of several equals wins. */
    method FindLoudest(now: int) returns (loudest: string, level: real)
      ensures forall id | Recent(levels, id, now) :: EffectiveLevel(levels[id], now) <= level
      ensures level > FLOOR ==> Recent(levels, loudest, now) && level == EffectiveLevel(levels[loudest], now)
      ensures level >= FLOOR && (level == FLOOR ==> loudest == "")
    {
      loudest, level := "", FLOOR;
      var todo := levels.Keys;
      while todo != {}
        invariant todo <= levels.Keys
        invariant forall id | Recent(levels, id, now) && id !in todo :: EffectiveLevel(levels[id], now) <= level
        invariant level > FLOOR ==> Recent(levels, loudest, now) && level == EffectiveLevel(levels[loudest], now)
        invariant level >= FLOOR && (level == FLOOR ==> loudest == "")
        decreases todo
      {
        var id :| id in todo;
        todo := todo - {id};
        var e := levels[id];
        if now - e.when > WINDOW {
          continue;
        }
        var eff := EffectiveLevel(e, now);
        if eff > level {
          loudest, level := id, eff;
        }
      }
    }

    method Forget(peer: string, clock: int)
      modifies this
      ensures View() == ForgetStep(old(View()), peer, clock)
    {
      levels := levels - {peer};
      assert levels == map id | id in old(levels) && id != peer :: old(levels)[id];
      if current == peer {
        current := "";
        currentSince := Some(clock);
      }
    }
  }

  /** An entry counts for two seconds, the last millisecond of them included. */
  lemma WindowIsTwoSeconds(levels: map<string, Level>, id: string, now: int)
    ensures Recent(levels, id, now) <==> id in levels && now <= levels[id].when + 2000
  {}

  /** In silence a level falls by 3 dB every 100 ms; it does not rise before its time. */
  lemma FadesThreeDecibels(e: Level, steps: nat)
    ensures EffectiveLevel(e, e.when + 100 * steps) == e.dbfs - 3.0 * steps as real
    ensures EffectiveLevel(e, e.when - steps) == e.dbfs
  {
    assert (100 * steps) as real == 100.0 * steps as real;
  }

  // ----- soundness of one selection ---------------------------------------------------------

  /** A peer that is louder than every other one heard within the window. */
  ghost predicate UniqueLoudest(levels: map<string, Level>, id: string, now: int) {
    && Recent(levels, id, now)
    && forall other | Recent(levels, other, now) && other != id ::
         EffectiveLevel(levels[other], now) < EffectiveLevel(levels[id], now)
  }

  /** When the loudest peer is unique, no map order can change the outcome. */
  lemma OrderDoesNotMatter(c: Settings, s: State, x: Sample, clock: int, top: string,
                           s1: State, speaker1: string, changed1: bool, s2: State, speaker2: string, changed2: bool)
    requires PushStep(c, s, x, clock, s1, speaker1, changed1)
    requires PushStep(c, s, x, clock, s2, speaker2, changed2)
    requires var now := if x.when.Some? then x.when.value else clock;
             UniqueLoudest(s.levels[x.peer := Level(x.dbfs, now)], top, now)
    ensures s1 == s2 && speaker1 == speaker2 && changed1 == changed2
  {}

  /** Once the hysteresis has passed, a unique loudest peer at or above the threshold is current. */
  lemma LoudestTakesOver(c: Settings, s: State, x: Sample, clock: int, s': State, speaker: string, changed: bool,
                         top: string)
    requires PushStep(c, s, x, clock, s', speaker, changed)
    requires s.since.None? || clock - s.since.value >= c.hysteresis
    requires var now := if x.when.Some? then x.when.value else clock;
             && UniqueLoudest(s'.levels, top, now)
             && EffectiveLevel(s'.levels[top], now) >= c.threshold
             && EffectiveLevel(s'.levels[top], now) > FLOOR
    ensures s'.current == top
    ensures changed <==> s.current != top
  {}

  // ----- refinement: a score that does not depend on the time -----------------------------------

  /** The level the entry would have had at time 0 at the fading rate. */
  function Score(e: Level): real {
    e.dbfs + 0.03 * e.when as real
  }

  /** A stored score and when it was stored. */
  type Scores = map<string, (real, int)>

  /** The simple detector: it compares stored scores, and adds the time to the threshold alone. */
  datatype ScoreState = ScoreState(scores: Scores, current: string, since: Option<int>)

  predicate ScoreRecent(scores: Scores, id: string, now: int) {
    id in scores && now - scores[id].1 <= WINDOW
  }

  ghost predicate ScoreLoudest(scores: Scores, id: string, now: int) {
    && ScoreRecent(scores, id, now)
    && forall other | ScoreRecent(scores, other, now) :: scores[other].0 <= scores[id].0
  }

  ghost predicate ScoresBelow(scores: Scores, bar: real, now: int) {
    forall other | ScoreRecent(scores, other, now) :: scores[other].0 < bar
  }

  ghost predicate ScoresAtMost(scores: Scores, bar: real, now: int) {
    forall other | ScoreRecent(scores, other, now) :: scores[other].0 <= bar
  }

  ghost predicate ScorePush(c: Settings, s: ScoreState, peer: string, score: real, now: int,
                            s': ScoreState, speaker: string, changed: bool) {
    var scores := s.scores[peer := (score, now)];
    && s' == (if changed then ScoreState(scores, speaker, Some(now)) else s.(scores := scores))
    && (!changed ==> speaker == "")
    && ScoreDecides(c, scores, s.current, HysteresisPassed(s.since, c.hysteresis, now), now, speaker, changed)
  }

  ghost predicate ScoreDecides(c: Settings, scores: Scores, current: string, passed: bool, now: int,
                               speaker: string, changed: bool) {
    var rise := 0.03 * now as real;
    if c.threshold <= FLOOR && ScoresAtMost(scores, FLOOR + rise, now) then
      speaker == "" && (changed <==> current != "" && passed)
    else if changed then
      && speaker != current && passed
      && ScoreLoudest(scores, speaker, now)
      && scores[speaker].0 >= c.threshold + rise
    else
      || !passed
      || ScoresBelow(scores, c.threshold + rise, now)
      || (ScoreLoudest(scores, current, now) && scores[current].0 >= c.threshold + rise)
  }

  function ScoreForget(s: ScoreState, peer: string, clock: int): ScoreState {
    var scores := map id | id in s.scores && id != peer :: s.scores[id];
    if s.current == peer then ScoreState(scores, "", Some(clock)) else s.(scores := scores)
  }

  function ScoresOf(levels: map<string, Level>): Scores {
    map id | id in levels :: (Score(levels[id]), levels[id].when)
  }

  function Scored(s: State): ScoreState {
    ScoreState(ScoresOf(s.levels), s.current, s.since)
  }

  /** No stored entry lies in the future. */
  ghost predicate NotAfter(levels: map<string, Level>, now: int) {
    forall id | id in levels :: levels[id].when <= now
  }

  lemma ScoreShift(e: Level, now: int)
    requires e.when <= now
    ensures EffectiveLevel(e, now) == Score(e) - 0.03 * now as real
  {}

  lemma ScoresShift(levels: map<string, Level>, now: int)
    requires NotAfter(levels, now)
    ensures forall id | id in levels :: EffectiveLevel(levels[id], now) == ScoresOf(levels)[id].0 - 0.03 * now as real
    ensures forall id :: Recent(levels, id, now) <==> ScoreRecent(ScoresOf(levels), id, now)
  {
    forall id | id in levels
      ensures EffectiveLevel(levels[id], now) == ScoresOf(levels)[id].0 - 0.03 * now as real
    {
      ScoreShift(levels[id], now);
    }
  }

  lemma SameLoudest(levels: map<string, Level>, id: string, now: int)
    requires NotAfter(levels, now)
    ensures Loudest(levels, id, now) <==> ScoreLoudest(ScoresOf(levels), id, now)
  {
    ScoresShift(levels, now);
    var scores := ScoresOf(levels);
    if Loudest(levels, id, now) {
      forall other | ScoreRecent(scores, other, now) ensures scores[other].0 <= scores[id].0 {
        assert Recent(levels, other, now);
      }
    }
  }

  lemma SameBounds(levels: map<string, Level>, bound: real, now: int)
    requires NotAfter(levels, now)
    ensures AllBelow(levels, bound, now) <==> ScoresBelow(ScoresOf(levels), bound + 0.03 * now as real, now)
    ensures Quiet(levels, now) <==> ScoresAtMost(ScoresOf(levels), FLOOR + 0.03 * now as real, now)
  {
    ScoresShift(levels, now);
    var scores := ScoresOf(levels);
    forall other | ScoreRecent(scores, other, now) ensures Recent(levels, other, now) {}
    forall other | Recent(levels, other, now) ensures ScoreRecent(scores, other, now) {}
  }

  lemma ScoresAreFaithful(a: map<string, Level>, b: map<string, Level>)
    ensures ScoresOf(a) == ScoresOf(b) <==> a == b
  {
    if ScoresOf(a) == ScoresOf(b) {
      assert forall id :: id in a <==> id in ScoresOf(a);
      assert forall id :: id in b <==> id in ScoresOf(b);
      forall id | id in a ensures id in b && a[id] == b[id] {
        assert ScoresOf(a)[id] == ScoresOf(b)[id];
      }
    }
  }

  /** On a clock that never goes back, the fading detector does exactly what the score detector does,
      the reported changes included. */
  lemma RefinesScores(c: Settings, s: State, x: Sample, now: int, s': State, speaker: string, changed: bool)
    requires x.when == Some(now) || x.when == None
    requires NotAfter(s.levels, now)
    ensures PushStep(c, s, x, now, s', speaker, changed) <==>
            ScorePush(c, Scored(s), x.peer, Score(Level(x.dbfs, now)), now, Scored(s'), speaker, changed)
  {
    var levels := s.levels[x.peer := Level(x.dbfs, now)];
    assert ScoresOf(levels) == ScoresOf(s.levels)[x.peer := (Score(Level(x.dbfs, now)), now)];
    ScoresAreFaithful(levels, s'.levels);
    SameDecision(c, levels, s.current, HysteresisPassed(s.since, c.hysteresis, now), now, speaker, changed);
  }

  lemma SameDecision(c: Settings, levels: map<string, Level>, current: string, passed: bool, now: int,
                     speaker: string, changed: bool)
    requires NotAfter(levels, now)
    ensures Decides(c, levels, current, passed, now, speaker, changed) <==>
            ScoreDecides(c, ScoresOf(levels), current, passed, now, speaker, changed)
  {
    ScoresShift(levels, now);
    SameLoudest(levels, speaker, now);
    SameLoudest(levels, current, now);
    SameBounds(levels, c.threshold, now);
  }

  lemma ForgetsAlike(s: State, peer: string, clock: int, s': State)
    ensures s' == ForgetStep(s, peer, clock) <==> Scored(s') == ScoreForget(Scored(s), peer, clock)
  {
    var after := ForgetStep(s, peer, clock);
    assert Scored(after) == ScoreForget(Scored(s), peer, clock);
    ScoresAreFaithful(after.levels, s'.levels);
  }

  /** Two entries keep their order for as long as neither is replaced. */
  lemma OrderIsKept(a: Level, b: Level, now: int, later: int)
    requires a.when <= now && b.when <= now && now <= later
    ensures EffectiveLevel(a, now) < EffectiveLevel(b, now) <==> EffectiveLevel(a, later) < EffectiveLevel(b, later)
  {}

  // ----- whole runs ------------------------------------------------------------------------------

  datatype Event = Pushed(x: Sample, clock: int, speaker: string, changed: bool) | Forgot(peer: string, clock: int)

  ghost predicate Step(c: Settings, s: State, e: Event, s': State) {
    match e
    case Pushed(x, clock, speaker, changed) =>
      (x.when == None || x.when == Some(clock)) && PushStep(c, s, x, clock, s', speaker, changed)
    case Forgot(peer, clock) => s' == ForgetStep(s, peer, clock)
  }

  /** Any calls of Push and Forget, in any number and order, on a clock that never goes back. */
  ghost predicate Run(c: Settings, states: seq<State>, events: seq<Event>) {
    && |states| == |events| + 1
    && states[0] == State(map[], "", None)
    && (forall i | 0 <= i < |events| :: Step(c, states[i], events[i], states[i + 1]))
    && (forall i, j | 0 <= i <= j < |events| :: events[i].clock <= events[j].clock)
  }

  /** At every moment the current speaker is nobody or has a stored level. */
  lemma {:induction false} SpeakerIsStored(c: Settings, states: seq<State>, events: seq<Event>, k: nat)
    requires Run(c, states, events) && k < |states|
    ensures states[k].current == "" || states[k].current in states[k].levels
    decreases k
  {
    if k > 0 {
      SpeakerIsStored(c, states, events, k - 1);
      assert Step(c, states[k - 1], events[k - 1], states[k]);
    }
  }

  predicate IsChange(e: Event) {
    e.Pushed? && e.changed
  }

  /** The event changes the speaker, or forgets it. */
  predicate Marks(s: State, e: Event) {
    IsChange(e) || (e.Forgot? && e.peer == s.current)
  }

  lemma {:induction false} SinceLastMark(c: Settings, states: seq<State>, events: seq<Event>, i: nat, k: nat)
    requires Run(c, states, events) && i < k < |states| && Marks(states[i], events[i])
    ensures states[k].since.Some? && states[k].since.value >= events[i].clock
    decreases k
  {
    assert Step(c, states[k - 1], events[k - 1], states[k]);
    if k > i + 1 {
      SinceLastMark(c, states, events, i, k - 1);
      assert events[i].clock <= events[k - 1].clock;
    }
  }

  /** After a change, and after the speaker was forgotten, the next change waits for the hysteresis. */
  lemma MarkDelaysChange(c: Settings, states: seq<State>, events: seq<Event>, i: nat, j: nat)
    requires Run(c, states, events) && i < j < |events| && Marks(states[i], events[i]) && IsChange(events[j])
    ensures events[j].clock - events[i].clock >= c.hysteresis
  {
    SinceLastMark(c, states, events, i, j);
    assert Step(c, states[j], events[j], states[j + 1]);
  }

  ghost predicate Apart(events: seq<Event>, gap: int) {
    forall i, j | 0 <= i < j < |events| && IsChange(events[i]) && IsChange(events[j]) ::
      events[j].clock - events[i].clock >= gap
  }

  /** Any two reported changes of speaker are at least the hysteresis apart. */
  lemma ChangesAreApart(c: Settings, states: seq<State>, events: seq<Event>)
    requires Run(c, states, events)
    ensures Apart(events, c.hysteresis)
  {
    forall i, j | 0 <= i < j < |events| && IsChange(events[i]) && IsChange(events[j])
      ensures events[j].clock - events[i].clock >= c.hysteresis
    {
      MarkDelaysChange(c, states, events, i, j);
    }
  }

  /** The speaker that these events reported last, nobody when it was forgotten since. */
  function Reported(events: seq<Event>): string {
    if events == [] then ""
    else
      var before := Reported(events[..|events| - 1]);
      match events[|events| - 1]
      case Pushed(_, _, speaker, changed) => if changed then speaker else before
      case Forgot(peer, _) => if peer == before then "" else before
  }

  /** What these events pushed last for id, nothing when it was forgotten since. */
  function LastPush(events: seq<Event>, id: string): Option<Level> {
    if events == [] then None
    else
      var before := LastPush(events[..|events| - 1], id);
      match events[|events| - 1]
      case Pushed(x, clock, _, _) => if x.peer == id then Some(Level(x.dbfs, clock)) else before
      case Forgot(peer, _) => if peer == id then None else before
  }

  /** In every run the current speaker is the one reported last, however long it is silent, and the stored levels are
      the last ones pushed. */
  lemma {:induction false} StateFollowsEvents(c: Settings, states: seq<State>, events: seq<Event>, i: nat, id: string)
    requires Run(c, states, events) && i < |states|
    ensures states[i].current == Reported(events[..i])
    ensures LastPush(events[..i], id) == if id in states[i].levels then Some(states[i].levels[id]) else None
  {
    if i > 0 {
      StateFollowsEvents(c, states, events, i - 1, id);
      assert Step(c, states[i - 1], events[i - 1], states[i]);
      assert events[..i][..i - 1] == events[..i - 1];
    }
  }

  /** The number of changes reported at times in [from, to]. */
  function ChangesWithin(events: seq<Event>, from: int, to: int): nat {
    if events == [] then 0
    else
      var last := events[|events| - 1];
      ChangesWithin(events[..|events| - 1], from, to) +
      if IsChange(last) && from <= last.clock <= to then 1 else 0
  }

  lemma {:induction false} ChangesBefore(events: seq<Event>, from: int, to: int, bound: int)
    requires bound <= to
    requires forall i | 0 <= i < |events| && IsChange(events[i]) :: events[i].clock <= bound
    ensures ChangesWithin(events, from, to) == ChangesWithin(events, from, bound)
  {
    if events != [] {
      ChangesBefore(events[..|events| - 1], from, to, bound);
    }
  }

  lemma {:induction false} ChangesSpread(events: seq<Event>, from: int, to: int, gap: int)
    requires gap > 0 && Apart(events, gap)
    ensures var n := ChangesWithin(events, from, to); n > 0 ==> (n - 1) * gap <= to - from
  {
    if events != [] {
      var last, init := events[|events| - 1], events[..|events| - 1];
      assert Apart(init, gap);
      if IsChange(last) && from <= last.clock <= to {
        forall i | 0 <= i < |init| && IsChange(init[i]) ensures init[i].clock <= last.clock - gap {
          assert init[i] == events[i];
        }
        ChangesBefore(init, from, to, last.clock - gap);
        ChangesSpread(init, from, last.clock - gap, gap);
        var m := ChangesWithin(init, from, to);
        assert (m + 1 - 1) * gap == (m - 1) * gap + gap;
      } else {
        ChangesSpread(init, from, to, gap);
      }
    }
  }

  /** In any stretch of length t the speaker changes at most floor(t / hysteresis) + 1 times. */
  lemma SwitchRate(c: Settings, states: seq<State>, events: seq<Event>, from: int, t: nat)
    requires Run(c, states, events) && c.hysteresis > 0
    ensures ChangesWithin(events, from, from + t) <= t / c.hysteresis + 1
  {
    ChangesAreApart(c, states, events);
    ChangesSpread(events, from, from + t, c.hysteresis);
    var n, h := ChangesWithin(events, from, from + t), c.hysteresis;
    if n > 0 {
      QuotientBound(n - 1, t, h);
    }
  }

  lemma QuotientBound(m: nat, t: nat, h: int)
    requires h > 0 && m * h <= t
    ensures m <= t / h
  {
    var q := t / h;
    assert t < (q + 1) * h;
    if m >= q + 1 {
      ScaleBoth(q + 1, m, h);
    }
  }

  lemma ScaleBoth(a: int, b: int, h: int)
    requires h > 0 && a <= b
    ensures a * h <= b * h
  {}

  lemma {:induction false} RunLooksBack(c: Settings, states: seq<State>, events: seq<Event>, k: nat)
    requires Run(c, states, events) && k < |events|
    ensures NotAfter(states[k].levels, events[k].clock)
    decreases k
  {
    if k > 0 {
      RunLooksBack(c, states, events, k - 1);
      assert Step(c, states[k - 1], events[k - 1], states[k]);
      assert events[k - 1].clock <= events[k].clock;
    }
  }

  // ----- whole runs of the two detectors ---------------------------------------------------------

  ghost predicate ScoreMove(c: Settings, s: ScoreState, e: Event, s': ScoreState) {
    match e
    case Pushed(x, clock, speaker, changed) =>
      && (x.when == None || x.when == Some(clock))
      && ScorePush(c, s, x.peer, Score(Level(x.dbfs, clock)), clock, s', speaker, changed)
    case Forgot(peer, clock) => s' == ScoreForget(s, peer, clock)
  }

  ghost predicate ScoreRun(c: Settings, states: seq<ScoreState>, events: seq<Event>) {
    && |states| == |events| + 1
    && states[0] == ScoreState(map[], "", None)
    && (forall i | 0 <= i < |events| :: ScoreMove(c, states[i], events[i], states[i + 1]))
    && (forall i, j | 0 <= i <= j < |events| :: events[i].clock <= events[j].clock)
  }

  function ScoredAll(states: seq<State>): seq<ScoreState> {
    seq(|states|, i requires 0 <= i < |states| => Scored(states[i]))
  }

  lemma StepIsMove(c: Settings, s: State, e: Event, s': State)
    requires NotAfter(s.levels, e.clock)
    ensures Step(c, s, e, s') <==> ScoreMove(c, Scored(s), e, Scored(s'))
    ensures Step(c, s, e, s') ==> NotAfter(s'.levels, e.clock)
  {
    match e
    case Pushed(x, clock, speaker, changed) =>
      if x.when == None || x.when == Some(clock) { RefinesScores(c, s, x, clock, s', speaker, changed); }
    case Forgot(peer, clock) => ForgetsAlike(s, peer, clock, s');
  }

  ghost predicate StepsUpTo(c: Settings, states: seq<State>, events: seq<Event>, k: nat)
    requires k <= |events| && |states| == |events| + 1
  {
    forall i | 0 <= i < k :: Step(c, states[i], events[i], states[i + 1])
  }

  ghost predicate MovesUpTo(c: Settings, states: seq<State>, events: seq<Event>, k: nat)
    requires k <= |events| && |states| == |events| + 1
  {
    forall i | 0 <= i < k :: ScoreMove(c, Scored(states[i]), events[i], Scored(states[i + 1]))
  }

  lemma {:induction false} StepsAreMoves(c: Settings, states: seq<State>, events: seq<Event>, k: nat)
    requires k <= |events| && |states| == |events| + 1 && states[0].levels == map[]
    requires forall i, j | 0 <= i <= j < |events| :: events[i].clock <= events[j].clock
    ensures StepsUpTo(c, states, events, k) <==> MovesUpTo(c, states, events, k)
    ensures StepsUpTo(c, states, events, k) && k < |events| ==> NotAfter(states[k].levels, events[k].clock)
  {
    if k > 0 {
      StepsAreMoves(c, states, events, k - 1);
      if StepsUpTo(c, states, events, k - 1) {
        StepIsMove(c, states[k - 1], events[k - 1], states[k]);
        assert k < |events| ==> events[k - 1].clock <= events[k].clock;
      }
      assert StepsUpTo(c, states, events, k) ==> StepsUpTo(c, states, events, k - 1);
      assert MovesUpTo(c, states, events, k) ==> MovesUpTo(c, states, events, k - 1);
    }
  }

  /** Every state of the score detector stands for exactly one of the fading detector. */
  lemma ScoredIsOnto(t: ScoreState) returns (s: State)
    ensures Scored(s) == t
    ensures forall other: State :: Scored(other) == t ==> other == s
  {
    var levels := map id | id in t.scores :: Level(t.scores[id].0 - 0.03 * t.scores[id].1 as real, t.scores[id].1);
    s := State(levels, t.current, t.since);
    assert ScoresOf(levels) == t.scores;
    forall other: State | Scored(other) == t ensures other == s {
      ScoresAreFaithful(other.levels, levels);
    }
  }

  /** The two detectors have the same runs: any calls of Push and Forget, the same reported changes. */
  lemma SameRuns(c: Settings, states: seq<State>, events: seq<Event>)
    ensures Run(c, states, events) <==> ScoreRun(c, ScoredAll(states), events)
  {
    var scored := ScoredAll(states);
    if |states| == |events| + 1 {
      ScoresAreFaithful(states[0].levels, map[]);
      assert ScoresOf(map[]) == map[];
      if states[0].levels == map[] && (forall i, j | 0 <= i <= j < |events| :: events[i].clock <= events[j].clock) {
        StepsAreMoves(c, states, events, |events|);
        assert forall i | 0 <= i < |events| ::
          ScoreMove(c, scored[i], events[i], scored[i + 1])
          == ScoreMove(c, Scored(states[i]), events[i], Scored(states[i + 1]));
      }
    }
  }

  predicate Touches(e: Event, id: string) {
    match e
    case Pushed(x, _, _, _) => x.peer == id
    case Forgot(peer, _) => peer == id
  }

  lemma {:induction false} EntryStays(c: Settings, states: seq<State>, events: seq<Event>, i: nat, j: nat, id: string)
    requires Run(c, states, events) && i <= j < |states| && id in states[i].levels
    requires forall k | i <= k < j :: !Touches(events[k], id)
    ensures id in states[j].levels && states[j].levels[id] == states[i].levels[id]
    decreases j
  {
    if i < j {
      EntryStays(c, states, events, i, j - 1, id);
      assert Step(c, states[j - 1], events[j - 1], states[j]);
    }
  }

  /** Two peers that neither push nor are forgotten stay in the order in which they were. */
  lemma RunKeepsOrder(c: Settings, states: seq<State>, events: seq<Event>, i: nat, j: nat, a: string, b: string)
    requires Run(c, states, events) && i <= j < |events| && a in states[i].levels && b in states[i].levels
    requires forall k | i <= k < j :: !Touches(events[k], a) && !Touches(events[k], b)
    ensures var now, later := events[i].clock, events[j].clock;
            var before, after := states[i].levels, states[j].levels;
            && a in after && b in after
            && (EffectiveLevel(before[a], now) < EffectiveLevel(before[b], now) <==>
                EffectiveLevel(after[a], later) < EffectiveLevel(after[b], later))
  {
    EntryStays(c, states, events, i, j, a);
    EntryStays(c, states, events, i, j, b);
    RunLooksBack(c, states, events, i);
    OrderIsKept(states[i].levels[a], states[i].levels[b], events[i].clock, events[j].clock);
  }
}
