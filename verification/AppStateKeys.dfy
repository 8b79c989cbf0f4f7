/**
  Requests for missing app-state keys: a bounded table of when each key was last asked for, a
  24-hour window, and the roll-back of a request whose send fails.  Sends run outside the lock, so
  several requests can be under way at once.
 */
module AppStateKeys {
  const DAY := 86400
  const LIMIT := 1024

  type Table = map<string, int>

  // ----- one request's turn under the lock -----

  /** Pruning drops exactly the entries older than the cutoff. */
  function Pruned(table: Table, cutoff: int): (t: Table)
    ensures |t| <= |table|
  {
    var t := map key | key in table && table[key] >= cutoff :: table[key];
    Smaller(t.Keys, table.Keys);
    assert |t| == |t.Keys| && |table| == |table.Keys|;
    t
  }

  lemma {:induction false} Smaller<T>(a: set<T>, b: set<T>)
    requires a <= b
    ensures |a| <= |b|
    decreases |a|
  {
    if a != {} {
      var x :| x in a;
      Smaller(a - {x}, b - {x});
    }
  }

  predicate Due(table: Table, key: string, now: int) {
    key !in table || table[key] + DAY < now
  }

  predicate Asks(table: Table, key: string, now: int) {
    Due(table, key, now) && (key in table || |table| < LIMIT)
  }

  datatype Turn = Turn(table: Table, keys: seq<string>)

  /** Going through the missing keys: a due key with room for it is asked for and noted. */
  function Filtered(table: Table, missing: seq<string>, now: int): Turn {
    if missing == [] then Turn(table, [])
    else
      var t, key := Filtered(table, missing[..|missing| - 1], now), missing[|missing| - 1];
      if Asks(t.table, key, now) then Turn(t.table[key := now], t.keys + [key]) else t
  }

  function Opening(table: Table, now: int): Table {
    if |table| >= LIMIT then Pruned(table, now - DAY) else table
  }

  function Began(table: Table, missing: seq<string>, now: int): Turn {
    Filtered(Opening(table, now), missing, now)
  }

  function Forgotten(table: Table, keys: seq<string>): Table {
    map key | key in table && key !in keys :: table[key]
  }

  class Requests {
    var table: Table

    constructor ()
      ensures table == map[]
    {
      table := map[];
    }

    method PruneExpired(cutoff: int)
      modifies this
      ensures table == Pruned(old(table), cutoff)
    {
      var left := table.Keys;
      var kept := table;
      while left != {}
        invariant left <= table.Keys && kept.Keys <= table.Keys && table == old(table)
        invariant forall key :: key in table ==> (key in kept <==> key in left || table[key] >= cutoff)
        invariant forall key :: key in kept ==> kept[key] == table[key]
        decreases |left|
      {
        var key :| key in left;
        left := left - {key};
        if table[key] < cutoff {
          kept := map k | k in kept && k != key :: kept[k];
        }
      }
      assert kept == Pruned(table, cutoff);
      table := kept;
    }

    /** The keys to ask for now; the table stays within its bound. */
    method Begin(missing: seq<string>, now: int) returns (keys: seq<string>)
      requires |table| <= LIMIT
      modifies this
      ensures Turn(table, keys) == Began(old(table), missing, now)
      ensures |table| <= LIMIT
    {
      keys := [];
      if |table| >= LIMIT {
        PruneExpired(now - DAY);
      }
      ghost var first := table;
      for i := 0 to |missing|
        invariant Turn(table, keys) == Filtered(first, missing[..i], now) && |table| <= LIMIT
      {
        assert missing[..i + 1][..i] == missing[..i];
        var key := missing[i];
        if key !in table || table[key] + DAY < now {
          if key !in table && |table| >= LIMIT {
            continue;
          }
          table := table[key := now];
          keys := keys + [key];
        }
      }
      assert missing[..|missing|] == missing;
    }

    /** A send failed: its keys are forgotten. */
    method Forget(keys: seq<string>)
      modifies this
      ensures table == Forgotten(old(table), keys)
    {
      for i := 0 to |keys|
        invariant table == Forgotten(old(table), keys[..i])
      {
        table := map k | k in table && k != keys[i] :: table[k];
      }
      assert keys[..|keys|] == keys;
    }
  }

  /** What a turn does: it asks for due keys only, once each; those are noted at the present, all
      else is as before; and the table stays bounded. */
  lemma {:induction false} TurnIsSound(table: Table, missing: seq<string>, now: int)
    requires |table| <= LIMIT
    ensures var t := Filtered(table, missing, now);
            && |t.table| <= LIMIT
            && (forall key :: key in t.keys ==> Due(table, key, now) && key in t.table && t.table[key] == now)
            && (forall key :: key !in t.keys ==> (key in t.table <==> key in table))
            && (forall key :: key in t.table && key !in t.keys ==> t.table[key] == table[key])
            && (forall i, j :: 0 <= i < j < |t.keys| ==> t.keys[i] != t.keys[j])
  {
    if missing != [] {
      TurnIsSound(table, missing[..|missing| - 1], now);
    }
  }

  lemma {:induction false} FullnessOnly(table: Table, missing: seq<string>, now: int)
    requires |table| <= 1024
    ensures var t := Filtered(table, missing, now);
            && (forall key :: key in t.keys ==> key in missing)
            && (forall key :: key in missing && key !in t.keys && (key !in table || table[key] + 86400 < now) ==>
                  key !in t.table && |t.table| == 1024)
  {
    if missing != [] {
      var front, last := missing[..|missing| - 1], missing[|missing| - 1];
      FullnessOnly(table, front, now);
      TurnIsSound(table, front, now);
      assert forall key :: key in missing <==> key in front || key == last;
    }
  }

  /** A missing key that is due, never asked for or over 24 hours ago, is asked for unless the table
      is full of 1024 other keys; and a full table is cleared of all that are over 24 hours old
      first. */
  lemma DueIsAsked(table: Table, missing: seq<string>, now: int)
    requires |table| <= 1024
    ensures var t := Began(table, missing, now);
            && (forall key :: key in t.keys ==> key in missing)
            && (forall key :: key in missing && key !in t.keys && (key !in table || table[key] + 86400 < now) ==>
                  key !in t.table && |t.table| == 1024)
            && (|table| == 1024 ==> forall key :: key in t.table ==> t.table[key] + 86400 >= now)
  {
    OpeningKeepsRecent(table, now);
    FullnessOnly(Opening(table, now), missing, now);
    TurnIsSound(Opening(table, now), missing, now);
  }

  // ----- several requests under way -----

  datatype Outcome = Pending | Sent | Failed

  datatype Request = Request(time: int, keys: seq<string>, outcome: Outcome)

  datatype System = System(table: Table, log: seq<Request>, now: int)

  /** The clock never goes back; a send returns whenever it does. */
  datatype Step = Begin(missing: seq<string>, now: int) | Finish(i: nat, ok: bool, now: int)

  predicate Enabled(s: System, step: Step) {
    s.now <= step.now &&
    match step
    case Begin(_, _) => true
    case Finish(i, _, now) => i < |s.log| && s.log[i].outcome == Pending
  }

  function Next(s: System, step: Step): System
    requires Enabled(s, step)
  {
    match step
    case Begin(missing, now) =>
      var t := Began(s.table, missing, now);
      System(t.table, s.log + [Request(now, t.keys, Pending)], now)
    case Finish(i, ok, now) =>
      var log := s.log[i := s.log[i].(outcome := if ok then Sent else Failed)];
      System(if ok then s.table else Forgotten(s.table, s.log[i].keys), log, now)
  }

  /** A sequence of steps, each enabled where it is taken. */
  ghost predicate Possible(s: System, steps: seq<Step>)
    decreases |steps|
  {
    steps == [] || (Enabled(s, steps[0]) && Possible(Next(s, steps[0]), steps[1..]))
  }

  ghost function After(s: System, steps: seq<Step>): System
    requires Possible(s, steps)
    decreases |steps|
  {
    if steps == [] then s else After(Next(s, steps[0]), steps[1..])
  }

  /** Two requests for one key are more than a day apart unless the earlier one failed. */
  ghost predicate Apart(log: seq<Request>) {
    forall i, j, key :: 0 <= i < j < |log| && key in log[i].keys && key in log[j].keys && log[i].outcome != Failed ==>
      log[j].time > log[i].time + DAY
  }

  /** A request that has not failed is on record, or older than a day. */
  ghost predicate Recorded(s: System) {
    forall i, key :: 0 <= i < |s.log| && key in s.log[i].keys && s.log[i].outcome != Failed ==>
      (key in s.table && s.table[key] >= s.log[i].time) || s.now > s.log[i].time + DAY
  }

  ghost predicate Timely(s: System) {
    && |s.table| <= LIMIT
    && (forall i :: 0 <= i < |s.log| ==> s.log[i].time <= s.now)
    && (forall i, j, k :: 0 <= i < |s.log| && 0 <= j < k < |s.log[i].keys| ==> s.log[i].keys[j] != s.log[i].keys[k])
  }

  ghost predicate Inv(s: System) {
    Timely(s) && Apart(s.log) && Recorded(s)
  }

  /** Pruning at a later time drops nothing that is within its day. */
  lemma OpeningKeepsRecent(table: Table, now: int)
    ensures |Opening(table, now)| <= |table|
    ensures forall key :: key in Opening(table, now) ==> key in table && Opening(table, now)[key] == table[key]
    ensures forall key :: key in table && key !in Opening(table, now) ==> table[key] + DAY < now
  {
  }

  /** A key asked for was last asked for over a day ago, or that request failed. */
  lemma BeganIsDue(table: Table, missing: seq<string>, now: int)
    requires |table| <= LIMIT
    ensures var t := Began(table, missing, now);
            && |t.table| <= LIMIT
            && (forall key :: key in t.keys ==> Due(table, key, now) && key in t.table && t.table[key] == now)
            && (forall key :: key !in t.keys && key in table && table[key] + DAY >= now ==>
                  key in t.table && t.table[key] == table[key])
            && (forall key :: key !in t.keys && key in t.table ==> key in table && t.table[key] == table[key])
            && (forall i, j :: 0 <= i < j < |t.keys| ==> t.keys[i] != t.keys[j])
  {
    OpeningKeepsRecent(table, now);
    TurnIsSound(Opening(table, now), missing, now);
  }

  lemma BeginKeepsInv(s: System, missing: seq<string>, now: int)
    requires Inv(s) && s.now <= now
    ensures Inv(Next(s, Begin(missing, now)))
  {
    BeganIsDue(s.table, missing, now);
    hide Began, Due;
    var s' := Next(s, Begin(missing, now));
    assert Apart(s'.log) by { BeginKeepsApart(s, missing, now); }
    hide Apart;
  }

  lemma BeginKeepsApart(s: System, missing: seq<string>, now: int)
    requires Inv(s) && s.now <= now
    ensures Apart(Next(s, Begin(missing, now)).log)
  {
    BeganIsDue(s.table, missing, now);
    hide Began;
  }

  /** A failure is clean if no later request that shares a key with it is within its day, failed
      ones aside: then there is no record but its own to erase. */
  ghost predicate Clean(s: System, i: nat, now: int)
    requires i < |s.log|
  {
    forall j, key :: i < j < |s.log| && key in s.log[i].keys && key in s.log[j].keys && s.log[j].outcome != Failed ==>
      now > s.log[j].time + DAY
  }

  /** Every step but an unclean failure. */
  ghost predicate Harmless(s: System, step: Step)
    requires Enabled(s, step)
  {
    step.Finish? && !step.ok ==> Clean(s, step.i, step.now)
  }

  lemma FinishKeepsInv(s: System, i: nat, ok: bool, now: int)
    requires Inv(s) && Enabled(s, Finish(i, ok, now)) && Harmless(s, Finish(i, ok, now))
    ensures Inv(Next(s, Finish(i, ok, now)))
  {
    FinishKeepsRecords(s, i, ok, now);
    ForgottenIsSmaller(s.table, s.log[i].keys);
    hide Recorded, Forgotten, Clean;
  }

  lemma FinishKeepsRecords(s: System, i: nat, ok: bool, now: int)
    requires Inv(s) && Enabled(s, Finish(i, ok, now)) && Harmless(s, Finish(i, ok, now))
    ensures Recorded(Next(s, Finish(i, ok, now)))
  {
    var s' := Next(s, Finish(i, ok, now));
    forall j, key | 0 <= j < |s'.log| && key in s'.log[j].keys && s'.log[j].outcome != Failed
      ensures (key in s'.table && s'.table[key] >= s'.log[j].time) || s'.now > s'.log[j].time + DAY
    {
      assert key in s.log[j].keys && s.log[j].outcome != Failed;
    }
  }

  /** Whatever is asked for next, the requests stay spaced. */
  ghost predicate Secure(s: System) {
    forall missing, now :: s.now <= now ==> Apart(Next(s, Begin(missing, now)).log)
  }

  lemma InvIsSecure(s: System)
    requires Inv(s)
    ensures Secure(s)
  {
    forall missing, now | s.now <= now ensures Apart(Next(s, Begin(missing, now)).log) {
      BeginKeepsApart(s, missing, now);
    }
  }

  /** After an unclean failure, a key erased with it is asked for again at once. */
  lemma UncleanIsInsecure(s: System, i: nat, now: int)
    requires Inv(s) && Enabled(s, Finish(i, false, now)) && !Clean(s, i, now)
    ensures !Secure(Next(s, Finish(i, false, now)))
  {
    var j, key :| i < j < |s.log| && key in s.log[i].keys && key in s.log[j].keys && s.log[j].outcome != Failed
                  && now <= s.log[j].time + DAY;
    var s' := Next(s, Finish(i, false, now));
    assert key in s.table && key !in s'.table;
    ForgottenHasRoom(s.table, s.log[i].keys, key);
    AskForOne(s'.table, key, now);
    var again := Next(s', Begin([key], now));
    assert again.log[j].keys == s.log[j].keys && again.log[|s.log|].keys == [key] && again.log[|s.log|].time == now;
    assert !Apart(again.log);
  }

  /** A failed request's keys can be asked for again at once, if the table has room. */
  lemma FailedIsAskedAgain(s: System, i: nat, now: int, key: string)
    requires Enabled(s, Finish(i, false, now)) && key in s.log[i].keys && |s.table| <= LIMIT
    requires key in s.table || |s.table| < LIMIT
    ensures var s' := Next(s, Finish(i, false, now));
            && Next(s', Begin([key], now)).log[|s.log|].keys == [key]
            && forall other :: other !in s.log[i].keys ==>
                 (other in s'.table <==> other in s.table) && (other in s.table ==> s'.table[other] == s.table[other])
  {
    ForgottenIsSmaller(s.table, s.log[i].keys);
    if key in s.table {
      ForgottenHasRoom(s.table, s.log[i].keys, key);
    }
    AskForOne(Forgotten(s.table, s.log[i].keys), key, now);
  }

  lemma ForgottenHasRoom(table: Table, keys: seq<string>, key: string)
    requires key in table && key in keys
    ensures |Forgotten(table, keys)| < |table|
  {
    var left := Forgotten(table, keys);
    Smaller(left.Keys, table.Keys - {key});
    assert |left| == |left.Keys| && |table| == |table.Keys|;
  }

  lemma ForgottenIsSmaller(table: Table, keys: seq<string>)
    ensures |Forgotten(table, keys)| <= |table|
  {
    Smaller(Forgotten(table, keys).Keys, table.Keys);
    assert |Forgotten(table, keys)| == |Forgotten(table, keys).Keys| && |table| == |table.Keys|;
  }

  lemma HarmlessKeepsInv(s: System, step: Step)
    requires Inv(s) && Enabled(s, step) && Harmless(s, step)
    ensures Inv(Next(s, step))
  {
    match step {
      case Begin(missing, now) => BeginKeepsInv(s, missing, now);
      case Finish(i, ok, now) => FinishKeepsInv(s, i, ok, now);
    }
  }

  /** Every failure of a run is clean. */
  ghost predicate AllClean(s: System, steps: seq<Step>)
    requires Possible(s, steps)
    decreases |steps|
  {
    steps == [] || (Harmless(s, steps[0]) && AllClean(Next(s, steps[0]), steps[1..]))
  }

  /** At every point of a run, whatever is asked for next. */
  ghost predicate AlwaysSecure(s: System, steps: seq<Step>)
    requires Possible(s, steps)
    decreases |steps|
  {
    Secure(s) && (steps != [] ==> AlwaysSecure(Next(s, steps[0]), steps[1..]))
  }

  lemma {:induction false} SecureExactly(s: System, steps: seq<Step>)
    requires Inv(s) && Possible(s, steps)
    ensures AlwaysSecure(s, steps) <==> AllClean(s, steps)
    ensures AllClean(s, steps) ==> Inv(After(s, steps))
    decreases |steps|
  {
    InvIsSecure(s);
    if steps != [] {
      hide Inv, Secure, Next, Enabled, Harmless;
      if Harmless(s, steps[0]) {
        HarmlessKeepsInv(s, steps[0]);
        SecureExactly(Next(s, steps[0]), steps[1..]);
      } else {
        HarmfulIsInsecure(s, steps[0]);
      }
    }
  }

  lemma HarmfulIsInsecure(s: System, step: Step)
    requires Inv(s) && Enabled(s, step) && !Harmless(s, step)
    ensures !Secure(Next(s, step))
  {
    UncleanIsInsecure(s, step.i, step.now);
  }

  const EMPTY := System(map[], [], 0)

  /** From an empty table at any time, whatever requests overlap and whichever sends fail and when:
      at no point of the run can a next request come within 24 hours of an earlier one for the
      same key, that one not failed, exactly when every failure is clean. */
  lemma SpacedExactly(start: int, steps: seq<Step>)
    requires Possible(EMPTY.(now := start), steps)
    ensures AlwaysSecure(EMPTY.(now := start), steps) <==> AllClean(EMPTY.(now := start), steps)
  {
    SecureExactly(EMPTY.(now := start), steps);
  }

  /** And then the table stays within 1024 entries, no request repeats a key, and two requests for
      one key are more than 24 hours apart unless the earlier send failed. */
  lemma RequestsAreSpaced(start: int, steps: seq<Step>)
    requires Possible(EMPTY.(now := start), steps) && AllClean(EMPTY.(now := start), steps)
    ensures var s := After(EMPTY.(now := start), steps);
            && |s.table| <= LIMIT
            && (forall i, j, k :: 0 <= i < |s.log| && 0 <= j < k < |s.log[i].keys| ==>
                  s.log[i].keys[j] != s.log[i].keys[k])
            && (forall i, j, key ::
                  0 <= i < j < |s.log| && key in s.log[i].keys && key in s.log[j].keys && s.log[i].outcome != Failed ==>
                    s.log[j].time > s.log[i].time + DAY)
  {
    SecureExactly(EMPTY.(now := start), steps);
  }

  /** Failures come within a day of their sends. */
  ghost predicate TimelyFailures(s: System, steps: seq<Step>)
    requires Possible(s, steps)
    decreases |steps|
  {
    steps == [] ||
    (&& (steps[0].Finish? && !steps[0].ok ==> steps[0].now <= s.log[steps[0].i].time + DAY)
     && TimelyFailures(Next(s, steps[0]), steps[1..]))
  }

  /** A failure within a day of its send is clean, so a run with only such failures is, however
      late its successes. */
  lemma {:induction false} TimelyFailuresAreClean(s: System, steps: seq<Step>)
    requires Inv(s) && Possible(s, steps) && TimelyFailures(s, steps)
    ensures AllClean(s, steps)
    decreases |steps|
  {
    if steps != [] {
      assert Harmless(s, steps[0]);
      HarmlessKeepsInv(s, steps[0]);
      hide Inv, Next, Enabled, Harmless;
      TimelyFailuresAreClean(Next(s, steps[0]), steps[1..]);
    }
  }

  lemma AskForOne(table: Table, key: string, now: int)
    requires |table| < LIMIT && Due(table, key, now)
    ensures Began(table, [key], now) == Turn(table[key := now], [key])
  {
    assert [key][..0] == [];
    assert Filtered(table, [], now) == Turn(table, []);
    assert [] + [key] == [key];
  }
}
