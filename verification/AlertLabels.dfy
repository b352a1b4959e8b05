/** Which calls of `create_alert` are about the same alert (server/src/rules/alerting.rs):
    the label list becomes a map in which the last label of a name counts. */
module AlertLabels {
  import opened Machine
  import opened Model
  import opened Alerting

  /** The last label of this name has this value. */
  ghost predicate Binds(labels: Labels, name: string, value: string) {
    exists i :: 0 <= i < |labels| && labels[i] == Label(name, value)
             && forall j :: i < j < |labels| ==> labels[j].name != name
  }

  /** The map says of every name what the labels do. */
  ghost predicate BoundBy(m: map<string, string>, labels: Labels) {
    forall name, value :: (name in m && m[name] == value) <==> Binds(labels, name, value)
  }

  lemma {:induction false} LabelMapNames(labels: Labels, name: string)
    ensures name in LabelMap(labels) <==> exists i :: 0 <= i < |labels| && labels[i].name == name
  {
    if labels != [] {
      var init := labels[..|labels| - 1];
      LabelMapNames(init, name);
      if i :| 0 <= i < |init| && init[i].name == name {
        assert labels[i].name == name;
      }
      if i :| 0 <= i < |labels| && labels[i].name == name {
        assert i < |init| ==> init[i].name == name;
      }
    }
  }

  /** Where a label is the last of its name, the map has its value. */
  lemma {:induction false} LastWins(labels: Labels, i: nat)
    requires i < |labels| && forall j :: i < j < |labels| ==> labels[j].name != labels[i].name
    ensures labels[i].name in LabelMap(labels) && LabelMap(labels)[labels[i].name] == labels[i].value
  {
    if i < |labels| - 1 {
      LastWins(labels[..|labels| - 1], i);
    }
  }

  lemma {:induction false} LastOfName(labels: Labels, name: string) returns (i: nat)
    requires exists k :: 0 <= k < |labels| && labels[k].name == name
    ensures i < |labels| && labels[i].name == name && forall j :: i < j < |labels| ==> labels[j].name != name
  {
    i := |labels| - 1;
    if labels[i].name != name {
      i := LastOfName(labels[..i], name);
    }
  }

  /** So the map is exactly the last binding of each name, and decides between two lists
      as these bindings do. */
  lemma LabelMapBound(labels: Labels)
    ensures BoundBy(LabelMap(labels), labels)
  {
    forall name, value
      ensures (name in LabelMap(labels) && LabelMap(labels)[name] == value) <==> Binds(labels, name, value)
    {
      LabelMapNames(labels, name);
      if i :| 0 <= i < |labels| && labels[i].name == name {
        var k := LastOfName(labels, name);
        LastWins(labels, k);
        assert labels[k] == Label(name, labels[k].value);
      }
      if i :| 0 <= i < |labels| && labels[i] == Label(name, value)
              && forall j :: i < j < |labels| ==> labels[j].name != name {
        LastWins(labels, i);
      }
    }
  }

  ghost predicate SameBindings(a: Labels, b: Labels) {
    forall name, value :: Binds(a, name, value) <==> Binds(b, name, value)
  }

  lemma SameMapIff(a: Labels, b: Labels)
    ensures LabelMap(a) == LabelMap(b) <==> SameBindings(a, b)
  {
    LabelMapBound(a);
    LabelMapBound(b);
    if SameBindings(a, b) {
      BoundAlike(LabelMap(a), LabelMap(b), a, b);
    }
  }

  lemma BoundAlike(m: map<string, string>, n: map<string, string>, a: Labels, b: Labels)
    requires BoundBy(m, a) && BoundBy(n, b) && SameBindings(a, b)
    ensures m == n
  {
    forall name | name in m
      ensures name in n && n[name] == m[name]
    {
      assert Binds(a, name, m[name]);
    }
    forall name | name in n
      ensures name in m
    {
      assert Binds(b, name, n[name]);
    }
  }

  // ----- on runs -----------------------------------------------------------

  /** The alert as this call leaves it. */
  ghost predicate Reflects(a: Alert, s: Step)
    requires s.Create?
  {
    && a.name == s.name && BoundBy(a.labels, s.labels)
    && a.value == s.value && a.annotations == s.annotations && a.lastEvaluation == Some(s.now)
  }

  /** Only one alert changes, or one is added. */
  predicate OnlyAt(alerts: seq<Alert>, next: seq<Alert>, p: nat) {
    && p < |next| && (|next| == |alerts| || (|next| == |alerts| + 1 && p == |alerts|))
    && forall i :: 0 <= i < |alerts| && i != p ==> next[i] == alerts[i]
  }

  lemma RunSnoc(trace: seq<Step>, s: Step)
    ensures Run(trace + [s]) == Apply(Run(trace), s)
  {
    InitOfSnoc(trace, s);
  }

  /** After any run, a call changes one alert, which then reflects it. */
  lemma CreateReflects(trace: seq<Step>, s: Step) returns (p: nat)
    requires s.Create?
    ensures OnlyAt(Run(trace).alerts, Run(trace + [s]).alerts, p) && Reflects(Run(trace + [s]).alerts[p], s)
    ensures p == Position(Run(trace + [s]).alerts, Key(s.name, LabelMap(s.labels)))
  {
    RunSnoc(trace, s);
    LabelMapBound(s.labels);
    var alerts, next, key := Run(trace).alerts, Run(trace + [s]).alerts, Key(s.name, LabelMap(s.labels));
    p := Position(alerts, key);
    PositionIs(next, key, p);
  }

  /** What a call does to the first alert of its name and labels, in whatever list it finds
      it: an inactive alert, as `add_alert` may leave one, is raised, a pending one fires
      once it has been active for 300 seconds, and only a change of state is notified. */
  lemma CallEffect(b: Book, now: int, key: Key, value: u64, annotations: map<string, string>, i: nat, r: Book)
    requires i < |b.alerts| && KeyOf(b.alerts[i]) == key && forall j :: 0 <= j < i ==> KeyOf(b.alerts[j]) != key
    requires r == Created(b, now, key, value, annotations)
    ensures |r.alerts| == |b.alerts| && forall j :: 0 <= j < |b.alerts| && j != i ==> r.alerts[j] == b.alerts[j]
    ensures var a, next := b.alerts[i], r.alerts[i];
            && KeyOf(next) == key && next.value == value && next.annotations == annotations
            && next.lastEvaluation == Some(now)
            && (a.state == Inactive ==> next.state == Pending && next.activeAt == Some(now))
            && (a.state == Pending ==> next.state == Pending || next.state == Firing)
            && (a.state == Pending ==>
                  (next.state == Firing <==> a.activeAt.Some? && now - a.activeAt.value >= 300_000_000_000))
            && (a.state == Firing ==> next.state == Firing)
            && (a.state != Inactive ==> next.activeAt == a.activeAt)
            && r.log == b.log + (if next.state == a.state then [] else [next])
  {
    PositionIs(b.alerts, key, i);
  }

  /** After any run, two calls in a row are about the same alert iff their names and the
      last bindings of their label lists agree; otherwise the second leaves the alert of
      the first as it is. */
  lemma SharedAlertIff(trace: seq<Step>, a: Step, b: Step) returns (p: nat, q: nat)
    requires a.Create? && b.Create?
    ensures var start, once, twice := Run(trace).alerts, Run(trace + [a]).alerts, Run(trace + [a] + [b]).alerts;
            && OnlyAt(start, once, p) && Reflects(once[p], a)
            && OnlyAt(once, twice, q) && Reflects(twice[q], b)
            && (p == q <==> a.name == b.name && SameBindings(a.labels, b.labels))
  {
    p := CreateReflects(trace, a);
    q := CreateReflects(trace + [a], b);
    SameMapIff(a.labels, b.labels);
    RunSnoc(trace + [a], b);
  }

  /** The calls that `RunRefines` follows for a key are those with its name and, as last
      bindings, its labels. */
  lemma FollowedIff(key: Key, s: Step)
    requires s.Create?
    ensures Key(s.name, LabelMap(s.labels)) == key <==> s.name == key.name && BoundBy(key.labels, s.labels)
  {
    LabelMapBound(s.labels);
    if BoundBy(key.labels, s.labels) {
      BoundAlike(key.labels, LabelMap(s.labels), s.labels, s.labels);
    }
  }
}
