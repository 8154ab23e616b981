/** Uncontended slugs are needed: two signups for one slug can leave a tenant row without a schema, because the
    `catch` drops the schema by slug even when its own row insert lost the race. */
module SignupRace {
  import opened Tables
  import opened Connections
  import opened SignupSteps
  import opened SignupSafety

  lemma {:induction false} RunConcat(s: Sys, xs: seq<Event>, ys: seq<Event>)
    ensures Run(s, xs + ys) == Run(Run(s, xs), ys)
    decreases |ys|
  {
    if ys == [] {
      assert xs + ys == xs;
    } else {
      var init := ys[..|ys| - 1];
      RunConcat(s, xs, init);
      assert (xs + ys)[..|xs + ys| - 1] == xs + init;
    }
  }

  /** n awaits of call c without a fault. */
  function Go(c: nat, n: nat): seq<Event> {
    seq(n, _ => Advance(c, false))
  }

  lemma GoMore(s: Sys, c: nat, n: nat)
    ensures Run(s, Go(c, n + 1)) == Step(Run(s, Go(c, n)), Advance(c, false))
  {
    assert Go(c, n + 1)[..n] == Go(c, n);
  }

  /** The same awaits on the call's own state. */
  function Alone(w: World, now: Time, r: SignupReq, pc: Pc, n: nat): (World, Pc) {
    if n == 0 then (w, pc)
    else
      var (w', pc') := Alone(w, now, r, pc, n - 1);
      Next(w', now, r, pc', false)
  }

  lemma {:induction false} GoIsAlone(s: Sys, c: nat, n: nat)
    requires c < |s.calls|
    ensures var (w, pc) := Alone(s.w, s.now, s.calls[c].req, s.calls[c].pc, n);
            Run(s, Go(c, n)) == s.(w := w, calls := s.calls[c := s.calls[c].(pc := pc)])
    decreases n
  {
    hide Next;
    if n == 0 {
      assert s.calls[c := s.calls[c]] == s.calls;
    } else {
      GoIsAlone(s, c, n - 1);
      GoMore(s, c, n - 1);
    }
  }

  /** All other calls are refused at their first lookup. */
  function RefuseOthers(n: nat, a: nat, b: nat): seq<Event> {
    if n == 0 then []
    else if n - 1 == a || n - 1 == b then RefuseOthers(n - 1, a, b)
    else RefuseOthers(n - 1, a, b) + [Advance(n - 1, true)]
  }

  lemma {:induction false} OthersRefused(s: Sys, n: nat, a: nat, b: nat)
    requires n <= |s.calls| && forall i :: 0 <= i < n ==> s.calls[i].pc == Check
    ensures var t := Run(s, RefuseOthers(n, a, b));
      && t.w == s.w && t.now == s.now && |t.calls| == |s.calls|
      && forall i :: 0 <= i < |s.calls| ==>
           t.calls[i] == if i < n && i != a && i != b then s.calls[i].(pc := Refused) else s.calls[i]
  {
    if n > 0 { OthersRefused(s, n - 1, a, b); }
  }

  /** From its row insert a signup whose slug is clear goes through in five awaits. */
  lemma WinnerCreates(w: World, now: Time, r: SignupReq)
    requires IdsBelow(w) && !Conflicts(w.tenants, TenantRow(r)) && r.slug !in w.schemas
    ensures var (w', pc') := Alone(w, now, r, SaveRow, 5);
      && pc'.Created?
      && w'.tenants == w.tenants[w.nextTenantId := TenantRow(r)]
      && Connected(w', r.slug) && r.slug in w'.schemas
  {
    var (w1, c1) := Next(w, now, r, SaveRow, false);
    var (w2, c2) := Next(w1, now, r, c1, false);
    var (w3, c3) := Next(w2, now, r, c2, false);
    var (w4, c4) := Next(w3, now, r, c3, false);
    assert Alone(w, now, r, SaveRow, 1) == (w1, c1);
    assert Alone(w, now, r, SaveRow, 2) == (w2, c2);
    assert Alone(w, now, r, SaveRow, 3) == (w3, c3);
    assert Alone(w, now, r, SaveRow, 4) == (w4, c4);
    assert w4.schemas[r.slug] == NO_ROWS;
  }

  /** A signup whose insert is refused by UNIQUE drops the schema, whoever created it. */
  lemma LoserDrops(w: World, now: Time, r: SignupReq)
    requires Conflicts(w.tenants, TenantRow(r)) && Connected(w, r.slug)
    ensures var (w', pc') := Alone(w, now, r, SaveRow, 4);
      pc' == RolledBack && w'.tenants == w.tenants && r.slug !in w'.schemas
  {
    var (w1, c1) := Next(w, now, r, SaveRow, false);
    var (w2, c2) := Next(w1, now, r, c1, false);
    var (w3, c3) := Next(w2, now, r, c2, false);
    assert Alone(w, now, r, SaveRow, 1) == (w1, c1);
    assert Alone(w, now, r, SaveRow, 2) == (w2, c2);
    assert Alone(w, now, r, SaveRow, 3) == (w3, c3);
  }

  lemma BothPastCheck(w: World, now: Time, r: SignupReq)
    requires !SlugTaken(w.tenants, r.slug)
    ensures Alone(w, now, r, Check, 2) == (w, SaveRow)
  {
    assert Alone(w, now, r, Check, 1) == (w, Hash);
  }

  function RaceTrace(n: nat, a: nat, b: nat): seq<Event> {
    RefuseOthers(n, a, b) + Go(a, 2) + Go(b, 2) + Go(a, 5) + Go(b, 4)
  }

  lemma RaceInTurns(s: Sys, n: nat, a: nat, b: nat)
    ensures Run(s, RaceTrace(n, a, b))
         == Run(Run(Run(Run(Run(s, RefuseOthers(n, a, b)), Go(a, 2)), Go(b, 2)), Go(a, 5)), Go(b, 4))
  {
    hide Run, RefuseOthers, Go;
    RunConcat(s, RefuseOthers(n, a, b), Go(a, 2));
    RunConcat(s, RefuseOthers(n, a, b) + Go(a, 2), Go(b, 2));
    RunConcat(s, RefuseOthers(n, a, b) + Go(a, 2) + Go(b, 2), Go(a, 5));
    RunConcat(s, RefuseOthers(n, a, b) + Go(a, 2) + Go(b, 2) + Go(a, 5), Go(b, 4));
  }

  /** A signup that nothing stands in the way of and any other for its slug: this interleaving lets both finish
      and leaves a row without a schema. */
  lemma RaceUnsettles(before: World, reqs: seq<SignupReq>, now: Time, a: nat, b: nat)
    requires Settled(before) && a < |reqs| && b < |reqs| && a != b && reqs[a].slug == reqs[b].slug
    requires Free(before, reqs[a])
    ensures var s := Run(Begin(before, reqs, now), RaceTrace(|reqs|, a, b));
      AllOver(s) && SlugTaken(s.w.tenants, reqs[a].slug) && reqs[a].slug !in s.w.schemas && !Settled(s.w)
  {
    hide Alone, Next, Run, Go, RefuseOthers, RaceTrace;
    var s0 := Begin(before, reqs, now);
    var n := |reqs|;
    OthersRefused(s0, n, a, b);
    var s1 := Run(s0, RefuseOthers(n, a, b));
    BothPastCheck(before, now, reqs[a]);
    BothPastCheck(before, now, reqs[b]);
    GoIsAlone(s1, a, 2);
    var s2 := Run(s1, Go(a, 2));
    GoIsAlone(s2, b, 2);
    var s3 := Run(s2, Go(b, 2));
    WinnerCreates(before, now, reqs[a]);
    GoIsAlone(s3, a, 5);
    var s4 := Run(s3, Go(a, 5));
    assert s4.w.tenants[before.nextTenantId].slug == reqs[b].slug;
    LoserDrops(s4.w, now, reqs[b]);
    GoIsAlone(s4, b, 4);
    RaceInTurns(s0, n, a, b);
  }

  /** Exactly when a batch of signups is safe under every interleaving and every fault: no signup that nothing
      stands in the way of shares its slug with another one, however hopeless that other one is. */
  lemma SettlesIffUncontended(before: World, reqs: seq<SignupReq>, now: Time)
    requires Settled(before)
    ensures (forall events ::
               AllOver(Run(Begin(before, reqs, now), events)) ==> Settled(Run(Begin(before, reqs, now), events).w))
       <==> Uncontended(before, reqs)
  {
    hide Settled, AllOver, Free;
    if Uncontended(before, reqs) {
      forall events | AllOver(Run(Begin(before, reqs, now), events))
        ensures Settled(Run(Begin(before, reqs, now), events).w)
      {
        SignupsSettle(before, reqs, now, events);
      }
    } else {
      var i, j :| 0 <= i < |reqs| && 0 <= j < |reqs| && i != j && reqs[i].slug == reqs[j].slug && Free(before, reqs[i]);
      RaceUnsettles(before, reqs, now, i, j);
    }
  }

  /** In particular a batch of individually free signups is safe exactly when their slugs are distinct. */
  lemma SettlesIffDistinct(before: World, reqs: seq<SignupReq>, now: Time)
    requires Settled(before) && forall i :: 0 <= i < |reqs| ==> Free(before, reqs[i])
    ensures (forall events ::
               AllOver(Run(Begin(before, reqs, now), events)) ==> Settled(Run(Begin(before, reqs, now), events).w))
       <==> (forall i, j :: 0 <= i < j < |reqs| ==> reqs[i].slug != reqs[j].slug)
  {
    hide Settled, AllOver, Free;
    SettlesIffUncontended(before, reqs, now);
  }
}
