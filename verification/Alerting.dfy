/** The alert life cycle of server/src/rules/alerting.rs. Times are nanoseconds. The log
    holds the alerts passed to `notify`, all that a notifier sees: a removal is not
    marked, it shows the alert in the state it had. */
module Alerting {
  import opened Machine
  import opened Model

  datatype AlertState = Inactive | Pending | Firing

  datatype Alert = Alert(name: string, state: AlertState, labels: map<string, string>, annotations: map<string, string>,
                         activeAt: Option<int>, lastEvaluation: Option<int>, value: u64)

  datatype Key = Key(name: string, labels: map<string, string>)

  const SECOND: int := 1_000_000_000
  const HOLD: int := 300 * SECOND
  const EXPIRY: int := 3600 * SECOND

  function KeyOf(a: Alert): Key {
    Key(a.name, a.labels)
  }

  /** Label lists become maps; a repeated name keeps its last value. */
  function LabelMap(labels: Labels): (m: map<string, string>) {
    if labels == [] then map[]
    else LabelMap(labels[..|labels| - 1])[labels[|labels| - 1].name := labels[|labels| - 1].value]
  }

  // ----- the two operations on values --------------------------------------

  datatype Book = Book(alerts: seq<Alert>, log: seq<Alert>)

  /** Position of the first alert with the key, or the length if there is none. */
  function Position(alerts: seq<Alert>, key: Key): (i: nat)
    ensures i <= |alerts|
    ensures i < |alerts| ==> KeyOf(alerts[i]) == key
    ensures forall j :: 0 <= j < i ==> KeyOf(alerts[j]) != key
  {
    if alerts == [] || KeyOf(alerts[0]) == key then 0 else 1 + Position(alerts[1..], key)
  }

  /** The state after an evaluation at `now`. */
  function Evaluated(a: Alert, now: int): AlertState {
    if a.state == Inactive then Pending
    else if a.state == Pending && a.activeAt.Some? && now - a.activeAt.value >= HOLD then Firing
    else a.state
  }

  function Touched(a: Alert, now: int, value: u64, annotations: map<string, string>): Alert {
    a.(value := value, lastEvaluation := Some(now), annotations := annotations, state := Evaluated(a, now),
       activeAt := if a.state == Inactive then Some(now) else a.activeAt)
  }

  /** A changed state is announced. */
  function Announced(a: Alert, next: Alert): (notified: seq<Alert>) {
    if next.state == a.state then [] else [next]
  }

  /** `create_alert`. */
  function Created(b: Book, now: int, key: Key, value: u64, annotations: map<string, string>): (r: Book) {
    var i := Position(b.alerts, key);
    if i < |b.alerts| then
      var next := Touched(b.alerts[i], now, value, annotations);
      Book(b.alerts[i := next], b.log + Announced(b.alerts[i], next))
    else
      var a := Alert(key.name, Pending, key.labels, annotations, Some(now), Some(now), value);
      Book(b.alerts + [a], b.log + [a])
  }

  predicate Expired(a: Alert, now: int) {
    a.lastEvaluation.Some? && now - a.lastEvaluation.value > EXPIRY
  }

  /** What one alert contributes to the alerts kept, and to the removal notices. */
  function Survivor(a: Alert, now: int): seq<Alert> {
    if Expired(a, now) then [] else [a]
  }

  function Notice(a: Alert, now: int): seq<Alert> {
    if Expired(a, now) then [a] else []
  }

  function Kept(alerts: seq<Alert>, now: int): (r: seq<Alert>) {
    if alerts == [] then []
    else Kept(alerts[..|alerts| - 1], now) + Survivor(alerts[|alerts| - 1], now)
  }

  /** Removal notices, last alert first. */
  function Notices(alerts: seq<Alert>, now: int): (r: seq<Alert>) {
    if alerts == [] then []
    else Notice(alerts[|alerts| - 1], now) + Notices(alerts[..|alerts| - 1], now)
  }

  /** `clean_expired_alerts`: an order-preserving filter. */
  function Cleaned(b: Book, now: int): (r: Book) {
    Book(Kept(b.alerts, now), b.log + Notices(b.alerts, now))
  }

  method CollectLabels(labels: Labels) returns (m: map<string, string>)
    ensures m == LabelMap(labels)
  {
    m := map[];
    for k := 0 to |labels|
      invariant m == LabelMap(labels[..k])
    {
      TakeTake(labels, k);
      m := m[labels[k].name := labels[k].value];
    }
    TakeAll(labels);
  }

  // ----- the manager object ------------------------------------------------

  class AlertManager {
    var alerts: seq<Alert>
    var log: seq<Alert>

    ghost function View(): Book
      reads this
    {
      Book(alerts, log)
    }

    constructor ()
      ensures View() == Book([], [])
    {
      alerts, log := [], [];
    }

    /** The clock must not have gone back behind the activation of a pending alert:
        the source unwraps the elapsed time. */
    method CreateAlert(now: int, name: string, labels: Labels, value: u64, annotations: map<string, string>)
      requires var i := Position(alerts, Key(name, LabelMap(labels)));
               i < |alerts| && alerts[i].state == Pending && alerts[i].activeAt.Some? ==>
                   alerts[i].activeAt.value <= now
      modifies this
      ensures View() == Created(old(View()), now, Key(name, LabelMap(labels)), value, annotations)
    {
      var labelMap := CollectLabels(labels);
      var i := Position(alerts, Key(name, labelMap));
      if i < |alerts| {
        AppendNil(log);
        var alert := alerts[i].(value := value, lastEvaluation := Some(now), annotations := annotations);
        if alert.state == Inactive {
          alert := alert.(state := Pending, activeAt := Some(now));
          log := log + [alert];
        } else if alert.state == Pending {
          if alert.activeAt.Some? && now - alert.activeAt.value >= HOLD {
            alert := alert.(state := Firing);
            log := log + [alert];
          }
        }
        alerts := alerts[i := alert];
      } else {
        var alert := Alert(name, Pending, labelMap, annotations, Some(now), Some(now), value);
        alerts := alerts + [alert];
        log := log + [alert];
      }
    }

    /** Collect the indices of the expired alerts, then delete them from the back so
        that the remaining indices stay right. */
    method CleanExpiredAlerts(now: int)
      requires forall i :: 0 <= i < |alerts| && alerts[i].lastEvaluation.Some? ==> alerts[i].lastEvaluation.value <= now
      modifies this
      ensures View() == Cleaned(old(View()), now)
    {
      var doomed := ExpiredIndices(alerts, now);
      ghost var all, before := alerts, log;
      var k := |doomed|;
      ghost var cut := |all|;
      AtStart(all, now, before);
      while k > 0
        invariant 0 <= k <= |doomed| && cut == CutAt(all, doomed, k) && Swept(all, now, before, cut, alerts, log)
      {
        var i := doomed[k - 1];
        Gap(all, now, doomed, k, i + 1);
        RemoveTurn(all, now, before, cut, i, alerts, log);
        log := log + [alerts[i]];
        alerts := alerts[..i] + alerts[i + 1..];
        cut := i;
        k := k - 1;
      }
      Gap(all, now, doomed, 0, 0);
      AllDone(all, now, before, cut, alerts, log);
    }
  }

  /** All indices of expired alerts, ascending. */
  ghost predicate Lists(alerts: seq<Alert>, now: int, doomed: seq<nat>) {
    && (forall i, j :: 0 <= i < j < |doomed| ==> doomed[i] < doomed[j])
    && (forall i :: 0 <= i < |doomed| ==> doomed[i] < |alerts| && Expired(alerts[doomed[i]], now))
    && (forall j :: 0 <= j < |alerts| && Expired(alerts[j], now) ==> j in doomed)
  }

  method ExpiredIndices(alerts: seq<Alert>, now: int) returns (doomed: seq<nat>)
    ensures Lists(alerts, now, doomed)
  {
    doomed := [];
    for i := 0 to |alerts|
      invariant forall k, j :: 0 <= k < j < |doomed| ==> doomed[k] < doomed[j]
      invariant forall k :: 0 <= k < |doomed| ==> doomed[k] < i && Expired(alerts[doomed[k]], now)
      invariant forall j :: 0 <= j < i && Expired(alerts[j], now) ==> j in doomed
    {
      if Expired(alerts[i], now) {
        doomed := doomed + [i];
      }
    }
  }

  function CutAt(alerts: seq<Alert>, doomed: seq<nat>, k: nat): nat {
    if k < |doomed| then doomed[k] else |alerts|
  }

  lemma {:induction false} KeptAppend(a: seq<Alert>, b: seq<Alert>, now: int)
    ensures Kept(a + b, now) == Kept(a, now) + Kept(b, now)
    decreases |b|
  {
    if b == [] {
      AppendNil(a);
    } else {
      var init, x := b[..|b| - 1], b[|b| - 1];
      InitOfAppend(a, b);
      KeptAppend(a, init, now);
      Assoc(Kept(a, now), Kept(init, now), Survivor(x, now));
    }
  }

  lemma {:induction false} NoticesAppend(a: seq<Alert>, b: seq<Alert>, now: int)
    ensures Notices(a + b, now) == Notices(b, now) + Notices(a, now)
    decreases |b|
  {
    if b == [] {
      AppendNil(a);
    } else {
      var init, x := b[..|b| - 1], b[|b| - 1];
      InitOfAppend(a, b);
      NoticesAppend(a, init, now);
      Assoc(Notice(x, now), Notices(init, now), Notices(a, now));
    }
  }

  lemma {:induction false} NoneExpired(s: seq<Alert>, now: int)
    requires forall i :: 0 <= i < |s| ==> !Expired(s[i], now)
    ensures Kept(s, now) == s
    ensures Notices(s, now) == []
  {
    if s != [] {
      var init := s[..|s| - 1];
      NoneExpired(init, now);
      Unsnoc(s);
    }
  }

  /** Between two neighbours of the list nothing is expired. */
  lemma Gap(alerts: seq<Alert>, now: int, doomed: seq<nat>, k: nat, from: nat)
    requires Lists(alerts, now, doomed) && k <= |doomed| && CutAt(alerts, doomed, k) <= |alerts|
    requires from == if k == 0 then 0 else doomed[k - 1] + 1
    ensures from <= CutAt(alerts, doomed, k)
    ensures forall j :: from <= j < CutAt(alerts, doomed, k) ==> !Expired(alerts[j], now)
  {
    forall j | from <= j < CutAt(alerts, doomed, k)
      ensures !Expired(alerts[j], now)
    {
      assert j !in doomed;
    }
  }

  lemma RemoveStep(before: seq<Alert>, a: Alert, live: seq<Alert>, after: seq<Alert>, now: int)
    requires Expired(a, now) && forall i :: 0 <= i < |live| ==> !Expired(live[i], now)
    requires before == [a] + (live + after)
    ensures Kept(before, now) == live + Kept(after, now)
    ensures Notices(before, now) == Notices(after, now) + [a]
  {
    var rest := live + after;
    DropOne(a, now);
    KeptAppend([a], rest, now);
    NoticesAppend([a], rest, now);
    FrontKept(rest, now, live, after);
  }

  /** The alerts and the log when everything from position `cut` on has been dealt with. */
  ghost predicate Swept(all: seq<Alert>, now: int, before: seq<Alert>, cut: nat, alerts: seq<Alert>, log: seq<Alert>) {
    && cut <= |all|
    && alerts == all[..cut] + Kept(all[cut..], now)
    && log == before + Notices(all[cut..], now)
  }

  lemma AtStart(all: seq<Alert>, now: int, before: seq<Alert>)
    ensures Swept(all, now, before, |all|, all, before)
  {
    assert all[|all|..] == [];
    TakeAll(all);
    AppendNil(all);
    AppendNil(before);
  }

  /** One turn of the removal loop on the alerts still there. */
  lemma RemoveTurn(all: seq<Alert>, now: int, before: seq<Alert>, cut: nat, i: nat, left: seq<Alert>, log: seq<Alert>)
    requires Swept(all, now, before, cut, left, log) && i < cut && Expired(all[i], now)
    requires forall j :: i < j < cut ==> !Expired(all[j], now)
    ensures i < |left| && Swept(all, now, before, i, left[..i] + left[i + 1..], log + [left[i]])
  {
    var live, after := all[i + 1..cut], all[cut..];
    SpliceAt(all, i, cut, Kept(after, now), left);
    RemoveStep(all[i..], all[i], live, after, now);
    Assoc(before, Notices(after, now), [all[i]]);
  }

  lemma SpliceAt(all: seq<Alert>, i: nat, cut: nat, tail: seq<Alert>, left: seq<Alert>)
    requires i < cut <= |all| && left == all[..cut] + tail
    ensures i < |left| && left[i] == all[i]
    ensures left[..i] + left[i + 1..] == all[..i] + (all[i + 1..cut] + tail)
    ensures all[i..] == [all[i]] + (all[i + 1..cut] + all[cut..])
  {
  }

  lemma DropOne(a: Alert, now: int)
    requires Expired(a, now)
    ensures Kept([a], now) == [] && Notices([a], now) == [a]
  {
    assert [a][..0] == [];
  }

  lemma AllDone(all: seq<Alert>, now: int, before: seq<Alert>, cut: nat, alerts: seq<Alert>, log: seq<Alert>)
    requires Swept(all, now, before, cut, alerts, log) && forall j :: 0 <= j < cut ==> !Expired(all[j], now)
    ensures alerts == Kept(all, now) && log == before + Notices(all, now)
  {
    FrontKept(all, now, all[..cut], all[cut..]);
  }

  lemma FrontKept(all: seq<Alert>, now: int, live: seq<Alert>, rest: seq<Alert>)
    requires all == live + rest && forall i :: 0 <= i < |live| ==> !Expired(live[i], now)
    ensures Kept(all, now) == live + Kept(rest, now) && Notices(all, now) == Notices(rest, now)
  {
    NoneExpired(live, now);
    KeptAppend(live, rest, now);
    NoticesAppend(live, rest, now);
  }

  // ----- whole runs --------------------------------------------------------

  datatype Step =
    | Create(now: int, name: string, labels: Labels, value: u64, annotations: map<string, string>)
    | Clean(now: int)

  /** A run with a clock that never goes back. */
  predicate Monotone(trace: seq<Step>) {
    forall i, j :: 0 <= i < j < |trace| ==> trace[i].now <= trace[j].now
  }

  function Apply(b: Book, s: Step): (r: Book) {
    match s
    case Create(now, name, labels, value, annotations) => Created(b, now, Key(name, LabelMap(labels)), value,
        annotations)
    case Clean(now) => Cleaned(b, now)
  }

  function Run(trace: seq<Step>): (b: Book) {
    if trace == [] then Book([], []) else Apply(Run(trace[..|trace| - 1]), trace[|trace| - 1])
  }

  /** An alert as it can be at a time: firing exactly when it had been active for
      300 seconds at its last evaluation. */
  predicate Sound(a: Alert, clock: int) {
    && a.activeAt.Some? && a.lastEvaluation.Some? && a.state != Inactive
    && a.activeAt.value <= a.lastEvaluation.value <= clock
    && (a.state == Firing <==> a.lastEvaluation.value - a.activeAt.value >= HOLD)
  }

  predicate Unique(alerts: seq<Alert>) {
    forall i, j :: 0 <= i < j < |alerts| ==> KeyOf(alerts[i]) != KeyOf(alerts[j])
  }

  predicate AllSound(alerts: seq<Alert>, clock: int) {
    forall i :: 0 <= i < |alerts| ==> Sound(alerts[i], clock)
  }

  lemma CreatedSound(b: Book, clock: int, now: int, key: Key, value: u64, annotations: map<string, string>)
    requires Unique(b.alerts) && AllSound(b.alerts, clock) && clock <= now
    ensures var r := Created(b, now, key, value, annotations); Unique(r.alerts) && AllSound(r.alerts, now)
  {
    var i, r := Position(b.alerts, key), Created(b, now, key, value, annotations);
    forall j | 0 <= j < |b.alerts|
      ensures Sound(b.alerts[j], now)
    {
      assert Sound(b.alerts[j], clock);
    }
    forall j, k | 0 <= j < k < |r.alerts|
      ensures KeyOf(r.alerts[j]) != KeyOf(r.alerts[k])
    {
      assert k < |b.alerts| ==> KeyOf(r.alerts[j]) == KeyOf(b.alerts[j]) && KeyOf(r.alerts[k]) == KeyOf(b.alerts[k]);
    }
  }

  /** Exactly the alerts evaluated within the last hour are kept. */
  lemma {:induction false} KeptHas(alerts: seq<Alert>, now: int)
    ensures forall a :: a in Kept(alerts, now) <==> a in alerts && !Expired(a, now)
  {
    if alerts != [] {
      KeptHas(alerts[..|alerts| - 1], now);
      Unsnoc(alerts);
    }
  }

  lemma {:induction false} KeptSound(alerts: seq<Alert>, clock: int, now: int)
    requires AllSound(alerts, clock) && clock <= now
    ensures AllSound(Kept(alerts, now), now)
  {
    KeptHas(alerts, now);
    var kept := Kept(alerts, now);
    forall j | 0 <= j < |kept|
      ensures Sound(kept[j], now)
    {
      assert kept[j] in alerts;
      var q :| 0 <= q < |alerts| && alerts[q] == kept[j];
      assert Sound(alerts[q], clock);
    }
  }

  lemma {:induction false} KeptUnique(alerts: seq<Alert>, now: int)
    requires Unique(alerts)
    ensures Unique(Kept(alerts, now))
  {
    if alerts != [] {
      var init, a := alerts[..|alerts| - 1], alerts[|alerts| - 1];
      KeptUnique(init, now);
      KeptHas(init, now);
      NoneInKept(init, Kept(init, now), KeyOf(a));
    }
  }

  lemma NoneInKept(alerts: seq<Alert>, kept: seq<Alert>, key: Key)
    requires forall a :: a in kept ==> a in alerts
    requires forall i :: 0 <= i < |alerts| ==> KeyOf(alerts[i]) != key
    ensures forall j :: 0 <= j < |kept| ==> KeyOf(kept[j]) != key
  {
    forall j | 0 <= j < |kept|
      ensures KeyOf(kept[j]) != key
    {
      assert kept[j] in alerts;
    }
  }

  /** Over every run: keys stay unique and the firing rule holds of every alert. */
  lemma {:induction false} RunSound(trace: seq<Step>)
    requires Monotone(trace)
    ensures Unique(Run(trace).alerts)
    ensures trace == [] ==> Run(trace).alerts == []
    ensures trace != [] ==> AllSound(Run(trace).alerts, trace[|trace| - 1].now)
  {
    if trace != [] {
      var before, s := trace[..|trace| - 1], trace[|trace| - 1];
      RunSound(before);
      var clock := if before == [] then s.now else before[|before| - 1].now;
      match s {
        case Create(now, name, labels, value, annotations) =>
          CreatedSound(Run(before), clock, now, Key(name, LabelMap(labels)), value, annotations);
        case Clean(now) =>
          KeptSound(Run(before).alerts, clock, now);
          KeptUnique(Run(before).alerts, now);
      }
    }
  }

  // ----- the life of an alert in the log -----------------------------------

  /** What a subscriber knows of one key: nothing active, raised, or fired. */
  datatype Life = Absent | IsPending | IsFiring

  /** How a notifier that sees only the alert's state can follow one key: a second notice
      in the same state is the removal. None where no life goes on like that. */
  function Turn(life: Life, state: AlertState): (r: Option<Life>) {
    match (life, state)
    case (Absent, Pending) => Some(IsPending)
    case (IsPending, Firing) => Some(IsFiring)
    case (IsPending, Pending) => Some(Absent)
    case (IsFiring, Firing) => Some(Absent)
    case _ => None
  }

  /** Reading the log for one key; None if the notices are out of order. */
  function Replay(log: seq<Alert>, key: Key): (r: Option<Life>) {
    if log == [] then Some(Absent)
    else
      var before, a := Replay(log[..|log| - 1], key), log[|log| - 1];
      if before.None? || KeyOf(a) != key then before else Turn(before.value, a.state)
  }

  function LifeOf(alerts: seq<Alert>, key: Key): (r: Life) {
    var i := Position(alerts, key);
    if i == |alerts| then Absent else if alerts[i].state == Firing then IsFiring else IsPending
  }

  lemma ReplayOne(log: seq<Alert>, a: Alert, key: Key)
    ensures var before := Replay(log, key);
            Replay(log + [a], key) == if before.None? || KeyOf(a) != key then before else Turn(before.value, a.state)
  {
    InitOfSnoc(log, a);
  }

  lemma PositionIs(alerts: seq<Alert>, key: Key, i: nat)
    requires i <= |alerts| && (i < |alerts| ==> KeyOf(alerts[i]) == key)
    requires forall j :: 0 <= j < i ==> KeyOf(alerts[j]) != key
    ensures Position(alerts, key) == i
  {
    var p := Position(alerts, key);
    assert !(p < i) && !(i < p);
  }

  lemma CreatedLife(b: Book, clock: int, now: int, k: Key, value: u64, annotations: map<string, string>, key: Key)
    requires Unique(b.alerts) && AllSound(b.alerts, clock) && clock <= now
    requires Replay(b.log, key) == Some(LifeOf(b.alerts, key))
    ensures var r := Created(b, now, k, value, annotations); Replay(r.log, key) == Some(LifeOf(r.alerts, key))
  {
    var i, r := Position(b.alerts, k), Created(b, now, k, value, annotations);
    if i < |b.alerts| {
      assert Sound(b.alerts[i], clock);
      UpdatedLife(b.alerts, b.log, now, i, Touched(b.alerts[i], now, value, annotations), key);
    } else {
      var a := Alert(k.name, Pending, k.labels, annotations, Some(now), Some(now), value);
      NewLife(b.alerts, b.log, a, key, r.alerts);
    }
  }

  lemma NewLife(alerts: seq<Alert>, log: seq<Alert>, a: Alert, key: Key, more: seq<Alert>)
    requires a.state == Pending && Position(alerts, KeyOf(a)) == |alerts| && more == alerts + [a]
    requires Replay(log, key) == Some(LifeOf(alerts, key))
    ensures Replay(log + [a], key) == Some(LifeOf(more, key))
  {
    ReplayOne(log, a, key);
    AddedLife(alerts, a, key, more);
  }

  lemma UpdatedLife(alerts: seq<Alert>, log: seq<Alert>, now: int, i: nat, next: Alert, key: Key)
    requires Unique(alerts) && i < |alerts| && alerts[i].state != Inactive && KeyOf(next) == KeyOf(alerts[i])
    requires next.state == Evaluated(alerts[i], now) && Replay(log, key) == Some(LifeOf(alerts, key))
    ensures Replay(log + Announced(alerts[i], next), key) == Some(LifeOf(alerts[i := next], key))
  {
    TouchedLife(alerts, i, next, key);
    if next.state == alerts[i].state {
      AppendNil(log);
    } else {
      ReplayOne(log, next, key);
    }
  }

  /** Replacing an alert by one with the same key changes the life of that key only. */
  lemma TouchedLife(alerts: seq<Alert>, i: nat, a: Alert, key: Key)
    requires Unique(alerts) && i < |alerts| && KeyOf(alerts[i]) == KeyOf(a)
    ensures key != KeyOf(a) ==> LifeOf(alerts[i := a], key) == LifeOf(alerts, key)
    ensures key == KeyOf(a) ==> LifeOf(alerts[i := a], key) == if a.state == Firing then IsFiring else IsPending
    ensures key == KeyOf(a) ==> LifeOf(alerts, key) == if alerts[i].state == Firing then IsFiring else IsPending
  {
    var p := Position(alerts, key);
    if key == KeyOf(a) {
      PositionIs(alerts, key, i);
    }
    PositionIs(alerts[i := a], key, p);
  }

  lemma AddedLife(alerts: seq<Alert>, a: Alert, key: Key, more: seq<Alert>)
    requires Position(alerts, KeyOf(a)) == |alerts| && more == alerts + [a]
    ensures LifeOf(more, key)
         == if key != KeyOf(a) then LifeOf(alerts, key) else if a.state == Firing then IsFiring else IsPending
  {
    var p := Position(alerts, key);
    if p < |alerts| || key == KeyOf(a) {
      PositionIs(more, key, p);
    } else {
      PositionIs(more, key, |alerts| + 1);
    }
  }

  /** Removal notices end the lives of exactly the expired alerts. */
  lemma {:induction false} CleanedLife(alerts: seq<Alert>, now: int, log: seq<Alert>, key: Key)
    requires Unique(alerts) && AllRaised(alerts)
    requires Replay(log, key) == Some(LifeOf(alerts, key))
    ensures Replay(log + Notices(alerts, now), key) == Some(LifeOf(Kept(alerts, now), key))
    decreases |alerts|
  {
    if alerts == [] {
      AppendNil(log);
    } else {
      var init, a := alerts[..|alerts| - 1], alerts[|alerts| - 1];
      if KeyOf(a) == key {
        LastLife(alerts, now, log, key);
      } else {
        SkipLast(alerts, key);
        SkipLastKept(alerts, now, key);
        ReplayOthers(log, Notice(a, now), key);
        CleanedLife(init, now, log + Notice(a, now), key);
        LastNotice(log, alerts, now);
      }
    }
  }

  predicate AllRaised(alerts: seq<Alert>) {
    forall i :: 0 <= i < |alerts| ==> alerts[i].state != Inactive
  }

  lemma SoundRaised(alerts: seq<Alert>, clock: int)
    requires AllSound(alerts, clock)
    ensures AllRaised(alerts)
  {
    forall i | 0 <= i < |alerts|
      ensures alerts[i].state != Inactive
    {
      assert Sound(alerts[i], clock);
    }
  }

  lemma LastNotice(log: seq<Alert>, alerts: seq<Alert>, now: int)
    requires alerts != []
    ensures log + Notices(alerts, now)
         == (log + Notice(alerts[|alerts| - 1], now)) + Notices(alerts[..|alerts| - 1], now)
  {
  }

  lemma LastLife(alerts: seq<Alert>, now: int, log: seq<Alert>, key: Key)
    requires Unique(alerts) && AllRaised(alerts) && alerts != [] && KeyOf(alerts[|alerts| - 1]) == key
    requires Replay(log, key) == Some(LifeOf(alerts, key))
    ensures Replay(log + Notices(alerts, now), key) == Some(LifeOf(Kept(alerts, now), key))
  {
    var init, a := alerts[..|alerts| - 1], alerts[|alerts| - 1];
    LastHasKey(alerts, key);
    NoOtherNotice(init, now, key);
    LastKept(alerts, now, key);
    OwnNotice(log, a, now, key);
    ReplayOthers(log + Notice(a, now), Notices(init, now), key);
    LastNotice(log, alerts, now);
  }

  /** The notice of an alert's own removal, in the state that its life is in. */
  lemma OwnNotice(log: seq<Alert>, a: Alert, now: int, key: Key)
    requires KeyOf(a) == key && a.state != Inactive
    requires Replay(log, key) == Some(if a.state == Firing then IsFiring else IsPending)
    ensures Replay(log + Notice(a, now), key) == if Expired(a, now) then Some(Absent) else Replay(log, key)
  {
    if Expired(a, now) {
      ReplayOne(log, a, key);
    } else {
      AppendNil(log);
    }
  }

  lemma LastHasKey(alerts: seq<Alert>, key: Key)
    requires Unique(alerts) && alerts != [] && KeyOf(alerts[|alerts| - 1]) == key
    ensures Position(alerts, key) == |alerts| - 1
    ensures forall i :: 0 <= i < |alerts| - 1 ==> KeyOf(alerts[i]) != key
  {
    PositionIs(alerts, key, |alerts| - 1);
  }

  lemma SkipLast(alerts: seq<Alert>, key: Key)
    requires alerts != [] && KeyOf(alerts[|alerts| - 1]) != key
    ensures LifeOf(alerts, key) == LifeOf(alerts[..|alerts| - 1], key)
  {
    var init := alerts[..|alerts| - 1];
    var p := Position(init, key);
    if p < |init| {
      PositionIs(alerts, key, p);
    } else {
      PositionIs(alerts, key, |alerts|);
    }
  }

  lemma SkipLastKept(alerts: seq<Alert>, now: int, key: Key)
    requires alerts != [] && KeyOf(alerts[|alerts| - 1]) != key
    ensures LifeOf(Kept(alerts, now), key) == LifeOf(Kept(alerts[..|alerts| - 1], now), key)
  {
    var kept, a := Kept(alerts[..|alerts| - 1], now), alerts[|alerts| - 1];
    if Expired(a, now) {
      AppendNil(kept);
    } else {
      InitOfSnoc(kept, a);
      SkipLast(kept + [a], key);
    }
  }

  lemma LastKept(alerts: seq<Alert>, now: int, key: Key)
    requires Unique(alerts) && alerts != [] && KeyOf(alerts[|alerts| - 1]) == key
    ensures LifeOf(Kept(alerts, now), key)
         == if Expired(alerts[|alerts| - 1], now) then Absent else LifeOf(alerts, key)
  {
    var init, a := alerts[..|alerts| - 1], alerts[|alerts| - 1];
    var kept := Kept(init, now);
    LastHasKey(alerts, key);
    KeptHas(init, now);
    NoneInKept(init, kept, key);
    if Expired(a, now) {
      AppendNil(kept);
      PositionIs(kept, key, |kept|);
    } else {
      PositionIs(kept + [a], key, |kept|);
    }
  }

  lemma {:induction false} NoOtherNotice(alerts: seq<Alert>, now: int, key: Key)
    requires forall i :: 0 <= i < |alerts| ==> KeyOf(alerts[i]) != key
    ensures forall i :: 0 <= i < |Notices(alerts, now)| ==> KeyOf(Notices(alerts, now)[i]) != key
  {
    if alerts != [] {
      NoOtherNotice(alerts[..|alerts| - 1], now, key);
    }
  }

  lemma {:induction false} ReplayOthers(log: seq<Alert>, more: seq<Alert>, key: Key)
    requires forall i :: 0 <= i < |more| ==> KeyOf(more[i]) != key
    ensures Replay(log + more, key) == Replay(log, key)
    decreases |more|
  {
    if more == [] {
      AppendNil(log);
    } else {
      InitOfAppend(log, more);
      ReplayOthers(log, more[..|more| - 1], key);
    }
  }

  /** Over every run and for every key the log reads as a sequence of lives, each one
      raised, then fired at most once, then removed, and ends in the key's present
      state. */
  lemma {:induction false} RunLives(trace: seq<Step>, key: Key)
    requires Monotone(trace)
    ensures Replay(Run(trace).log, key) == Some(LifeOf(Run(trace).alerts, key))
  {
    if trace != [] {
      var before, s := trace[..|trace| - 1], trace[|trace| - 1];
      RunLives(before, key);
      RunSound(before);
      var b := Run(before);
      var clock := if before == [] then s.now else before[|before| - 1].now;
      match s {
        case Create(now, name, labels, value, annotations) =>
          CreatedLife(b, clock, now, Key(name, LabelMap(labels)), value, annotations, key);
        case Clean(now) =>
          SoundRaised(b.alerts, clock);
          CleanedLife(b.alerts, now, b.log, key);
      }
    }
  }

  // ----- one key at a time -------------------------------------------------

  /** The alert of one key, followed without any list: off, or on since its activation. */
  datatype Watch = Off | On(since: int, last: int, value: u64, annotations: map<string, string>)

  function Watching(w: Watch, s: Step, key: Key): Watch {
    match s
    case Create(now, name, labels, value, annotations) =>
      if Key(name, LabelMap(labels)) != key then w
      else On(if w.Off? then now else w.since, now, value, annotations)
    case Clean(now) => if w.On? && now - w.last > EXPIRY then Off else w
  }

  function Watched(trace: seq<Step>, key: Key): (w: Watch) {
    if trace == [] then Off else Watching(Watched(trace[..|trace| - 1], key), trace[|trace| - 1], key)
  }

  /** The whole alert that a watch stands for. */
  function AsAlert(w: Watch, key: Key): Alert
    requires w.On?
  {
    Alert(key.name, if w.last - w.since >= HOLD then Firing else Pending, key.labels, w.annotations,
          Some(w.since), Some(w.last), w.value)
  }

  predicate Shows(alerts: seq<Alert>, key: Key, w: Watch) {
    var i := Position(alerts, key);
    if w.Off? then i == |alerts| else i < |alerts| && alerts[i] == AsAlert(w, key)
  }

  lemma CreatedShows(b: Book, clock: int, now: int, k: Key, value: u64, annotations: map<string, string>, key: Key,
                     w: Watch)
    requires Unique(b.alerts) && AllSound(b.alerts, clock) && clock <= now && Shows(b.alerts, key, w)
    ensures var w' := if k != key then w else On(if w.Off? then now else w.since, now, value, annotations);
            Shows(Created(b, now, k, value, annotations).alerts, key, w')
  {
    var i, p := Position(b.alerts, k), Position(b.alerts, key);
    var next := Created(b, now, k, value, annotations).alerts;
    if i < |b.alerts| {
      assert Sound(b.alerts[i], clock);
      assert forall j :: 0 <= j < |b.alerts| ==> KeyOf(next[j]) == KeyOf(b.alerts[j]);
      PositionIs(next, key, p);
    } else if p < |b.alerts| || k == key {
      PositionIs(next, key, p);
    } else {
      PositionIs(next, key, |next|);
    }
  }

  lemma CleanedShows(alerts: seq<Alert>, now: int, kept: seq<Alert>, key: Key, w: Watch)
    requires Unique(alerts) && Shows(alerts, key, w) && kept == Kept(alerts, now)
    ensures Shows(kept, key, if w.On? && now - w.last > EXPIRY then Off else w)
  {
    KeptHas(alerts, now);
    KeptUnique(alerts, now);
    var p, q := Position(alerts, key), Position(kept, key);
    if q < |kept| {
      assert kept[q] in alerts;
      HasPosition(alerts, kept[q]);
    }
    if p < |alerts| && !Expired(alerts[p], now) {
      assert alerts[p] in kept;
      HasPosition(kept, alerts[p]);
    }
  }

  lemma HasPosition(alerts: seq<Alert>, a: Alert)
    requires Unique(alerts) && a in alerts
    ensures var i := Position(alerts, KeyOf(a)); i < |alerts| && alerts[i] == a
  {
    var i :| 0 <= i < |alerts| && alerts[i] == a;
    PositionIs(alerts, KeyOf(a), i);
  }

  /** Over every run the list holds, for each key, exactly the alert that following
      this key alone gives: activation, last evaluation, value and annotations. */
  lemma {:induction false} RunRefines(trace: seq<Step>, key: Key)
    requires Monotone(trace)
    ensures Shows(Run(trace).alerts, key, Watched(trace, key))
  {
    if trace != [] {
      var before, s := trace[..|trace| - 1], trace[|trace| - 1];
      RunRefines(before, key);
      RunSound(before);
      var b, w := Run(before), Watched(before, key);
      var clock := if before == [] then s.now else before[|before| - 1].now;
      match s {
        case Create(now, name, labels, value, annotations) =>
          CreatedShows(b, clock, now, Key(name, LabelMap(labels)), value, annotations, key, w);
        case Clean(now) =>
          CleanedShows(b.alerts, now, Kept(b.alerts, now), key, w);
      }
    }
  }

  // ----- active alerts -----------------------------------------------------

  /** `get_active_alerts`. */
  function Active(alerts: seq<Alert>): (r: seq<Alert>) {
    if alerts == [] then []
    else Active(alerts[..|alerts| - 1]) + (if alerts[|alerts| - 1].state == Firing then [alerts[|alerts| - 1]] else [])
  }

  lemma {:induction false} ActiveHas(alerts: seq<Alert>, a: Alert)
    ensures a in Active(alerts) <==> a in alerts && a.state == Firing
  {
    if alerts != [] {
      ActiveHas(alerts[..|alerts| - 1], a);
      Unsnoc(alerts);
    }
  }

  /** An alert is reported active exactly when it is live and its last evaluation came
      at least 300 seconds after it was raised. */
  lemma ActiveMeansHeld(trace: seq<Step>, a: Alert)
    requires Monotone(trace)
    ensures a in Active(Run(trace).alerts) <==>
            && a in Run(trace).alerts && a.lastEvaluation.Some? && a.activeAt.Some?
            && a.lastEvaluation.value - a.activeAt.value >= HOLD
  {
    RunSound(trace);
    ActiveHas(Run(trace).alerts, a);
    if a in Run(trace).alerts {
      var i :| 0 <= i < |Run(trace).alerts| && Run(trace).alerts[i] == a;
      assert Sound(Run(trace).alerts[i], trace[|trace| - 1].now);
    }
  }
}
