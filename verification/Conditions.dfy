/** Status conditions of a User: one per type, each remembering when its status last changed. */
module Conditions {
  import opened Types

  /** READY and PASSWORD_SYNCED are the types the operator writes. */
  const READY := "Ready"
  const PASSWORD_SYNCED := "PasswordSynced"

  datatype Condition = Condition(kind: string, status: bool, time: int, reason: string, message: string)

  /** lastTransitionTime: the time of a condition of this type and status, or now. */
  function LastTransitionTime(kind: string, status: bool, last: seq<Condition>, now: int): int {
    if last == [] then now
    else if last[0].kind == kind && last[0].status == status then last[0].time
    else LastTransitionTime(kind, status, last[1..], now)
  }

  function Ready(last: seq<Condition>, now: int): Condition {
    Condition(READY, true, LastTransitionTime(READY, true, last, now), "SuccessfulCreateOrUpdate", "")
  }

  function NotReady(message: string, last: seq<Condition>, now: int): Condition {
    Condition(READY, false, LastTransitionTime(READY, false, last, now), "FailedCreateOrUpdate", message)
  }

  function PasswordSynced(last: seq<Condition>, now: int): Condition {
    Condition(PASSWORD_SYNCED, true, LastTransitionTime(PASSWORD_SYNCED, true, last, now), "SuccessfulPasswordSync", "")
  }

  ghost predicate OnePerKind(cs: seq<Condition>) {
    forall i, j :: 0 <= i < j < |cs| ==> cs[i].kind != cs[j].kind
  }

  /** The condition of a type, if there is one. */
  function Find(cs: seq<Condition>, kind: string): Option<Condition> {
    if cs == [] then None else if cs[0].kind == kind then Some(cs[0]) else Find(cs[1..], kind)
  }

  /** upsertCondition: replace the first condition of the type, or append. */
  function Upserted(cs: seq<Condition>, c: Condition): seq<Condition> {
    if cs == [] then [c] else if cs[0].kind == c.kind then [c] + cs[1..] else [cs[0]] + Upserted(cs[1..], c)
  }

  lemma {:induction false} FindMeans(cs: seq<Condition>, kind: string)
    ensures Find(cs, kind).None? <==> forall i :: 0 <= i < |cs| ==> cs[i].kind != kind
    ensures Find(cs, kind).Some? ==> Find(cs, kind).value in cs && Find(cs, kind).value.kind == kind
  {
    if cs != [] {
      FindMeans(cs[1..], kind);
      assert forall i :: 0 < i < |cs| ==> cs[i] == cs[1..][i-1];
    }
  }

  /** Upserting sets the condition of its type and leaves every other type alone. */
  lemma {:induction false} UpsertedFinds(cs: seq<Condition>, c: Condition, kind: string)
    ensures Find(Upserted(cs, c), kind) == if kind == c.kind then Some(c) else Find(cs, kind)
  {
    if cs == [] {
      assert [c][1..] == [];
    } else if cs[0].kind == c.kind {
      assert ([c] + cs[1..])[1..] == cs[1..];
    } else {
      assert ([cs[0]] + Upserted(cs[1..], c))[1..] == Upserted(cs[1..], c);
      UpsertedFinds(cs[1..], c, kind);
    }
  }

  lemma {:induction false} UpsertedOnePerKind(cs: seq<Condition>, c: Condition)
    requires OnePerKind(cs)
    ensures OnePerKind(Upserted(cs, c))
  {
    if cs != [] {
      var rest := cs[1..];
      assert OnePerKind(rest);
      if cs[0].kind != c.kind {
        UpsertedOnePerKind(rest, c);
        FindMeans(rest, cs[0].kind);
        UpsertedFinds(rest, c, cs[0].kind);
        FindMeans(Upserted(rest, c), cs[0].kind);
      } else {
        var r := [c] + rest;
        assert forall i :: 0 < i < |r| ==> r[i] == cs[i];
      }
    }
  }

  /** With one condition per type, the search finds the time of the type's own condition when its
      status is the new one, and now otherwise. */
  lemma {:induction false} LastTransitionMeans(cs: seq<Condition>, kind: string, status: bool, now: int)
    requires OnePerKind(cs)
    ensures LastTransitionTime(kind, status, cs, now)
            == match Find(cs, kind) case Some(c) => (if c.status == status then c.time else now) case None => now
  {
    if cs != [] {
      assert OnePerKind(cs[1..]);
      LastTransitionMeans(cs[1..], kind, status, now);
      if cs[0].kind == kind {
        FindMeans(cs[1..], kind);
        assert forall i :: 0 <= i < |cs[1..]| ==> cs[1..][i] == cs[i+1];
      }
    }
  }

  // ---------------------------------------------------------------- in place

  class UserStatus {
    var conditions: seq<Condition>

    /** upsertCondition on the status, element by element. */
    method Upsert(c: Condition)
      modifies this
      ensures conditions == Upserted(old(conditions), c)
    {
      ghost var was := conditions;
      var i := 0;
      while i < |conditions|
        invariant 0 <= i <= |conditions| && conditions == was
        invariant forall j :: 0 <= j < i ==> was[j].kind != c.kind
        invariant Upserted(was, c) == was[..i] + Upserted(was[i..], c)
      {
        if conditions[i].kind == c.kind {
          conditions := conditions[i := c];
          assert was[i..][1..] == was[i+1..];
          assert conditions == was[..i] + ([c] + was[i+1..]);
          return;
        }
        assert was[i..][1..] == was[i+1..];
        assert was[..i] + ([was[i]] + Upserted(was[i+1..], c)) == was[..i+1] + Upserted(was[i+1..], c);
        i := i + 1;
      }
      conditions := conditions + [c];
      assert was[i..] == [] && was[..i] == was;
    }

    /** User.SetStatusConditions: each type has the last condition given for it, and a type that is
        not given keeps the one it had; at most one condition per type stays that. */
    method SetStatusConditions(cs: seq<Condition>)
      modifies this
      ensures forall kind :: Find(conditions, kind)
                == if LastGiven(cs, kind).Some? then LastGiven(cs, kind) else Find(old(conditions), kind)
      ensures old(OnePerKind(conditions)) ==> OnePerKind(conditions)
    {
      assert cs[..0] == [];
      for i := 0 to |cs|
        invariant forall kind :: Find(conditions, kind)
                    == if LastGiven(cs[..i], kind).Some? then LastGiven(cs[..i], kind) else Find(old(conditions), kind)
        invariant old(OnePerKind(conditions)) ==> OnePerKind(conditions)
      {
        ghost var was := conditions;
        Upsert(cs[i]);
        assert cs[..i+1][..i] == cs[..i];
        forall kind ensures Find(conditions, kind) == if kind == cs[i].kind then Some(cs[i]) else Find(was, kind) {
          UpsertedFinds(was, cs[i], kind);
        }
        if OnePerKind(was) {
          UpsertedOnePerKind(was, cs[i]);
        }
      }
      assert cs[..|cs|] == cs;
    }
  }

  /** The last of these conditions that is of this type. */
  function LastGiven(cs: seq<Condition>, kind: string): Option<Condition> {
    if cs == [] then None
    else if cs[|cs|-1].kind == kind then Some(cs[|cs|-1])
    else LastGiven(cs[..|cs|-1], kind)
  }

  // ---------------------------------------------------------------- over many reconciles

  /** What one reconcile reports, and when: whether it got as far as syncing the password, and
      whether it succeeded. */
  datatype Report = Report(synced: bool, ready: bool, message: string, now: int)

  function Reported(cs: seq<Condition>, r: Report): seq<Condition> {
    var cs' := if r.synced then Upserted(cs, PasswordSynced(cs, r.now)) else cs;
    Upserted(cs', if r.ready then Ready(cs', r.now) else NotReady(r.message, cs', r.now))
  }

  function History(rs: seq<Report>): seq<Condition> {
    if rs == [] then [] else Reported(History(rs[..|rs|-1]), rs[|rs|-1])
  }

  /** Reference: the status a type has after these reports. */
  function StatusAfter(rs: seq<Report>, kind: string): Option<bool> {
    if rs == [] then None
    else
      var r := rs[|rs|-1];
      if kind == READY then Some(r.ready)
      else if kind == PASSWORD_SYNCED && r.synced then Some(true)
      else StatusAfter(rs[..|rs|-1], kind)
  }

  /** Reference: when that status last changed. */
  function ChangedAt(rs: seq<Report>, kind: string): int {
    if rs == [] then 0
    else if StatusAfter(rs, kind) != StatusAfter(rs[..|rs|-1], kind) then rs[|rs|-1].now
    else ChangedAt(rs[..|rs|-1], kind)
  }

  /** Over any sequence of reconciles a User has at most one condition per type, with the status
      last reported for it, and its time is the moment that status last changed. */
  lemma {:induction false} ConditionHistory(rs: seq<Report>, kind: string)
    ensures OnePerKind(History(rs))
    ensures match Find(History(rs), kind)
            case None => StatusAfter(rs, kind).None?
            case Some(c) => StatusAfter(rs, kind) == Some(c.status) && c.time == ChangedAt(rs, kind)
    decreases |rs|
  {
    if rs != [] {
      var before, r := rs[..|rs|-1], rs[|rs|-1];
      var cs := History(before);
      ConditionHistory(before, kind);
      ConditionHistory(before, READY);
      ConditionHistory(before, PASSWORD_SYNCED);
      var p := PasswordSynced(cs, r.now);
      LastTransitionMeans(cs, PASSWORD_SYNCED, true, r.now);
      UpsertedOnePerKind(cs, p);
      UpsertedFinds(cs, p, kind);
      UpsertedFinds(cs, p, READY);
      var cs' := if r.synced then Upserted(cs, p) else cs;
      var c := if r.ready then Ready(cs', r.now) else NotReady(r.message, cs', r.now);
      LastTransitionMeans(cs', READY, r.ready, r.now);
      UpsertedOnePerKind(cs', c);
      UpsertedFinds(cs', c, kind);
    }
  }

  /** And it has the types, reasons and messages that go with what was reported. */
  lemma {:induction false} ConditionWords(rs: seq<Report>)
    ensures rs != [] ==>
              var ready, last := Find(History(rs), "Ready"), rs[|rs|-1];
              && ready.Some?
              && ready.value.reason == (if last.ready then "SuccessfulCreateOrUpdate" else "FailedCreateOrUpdate")
              && ready.value.message == (if last.ready then "" else last.message)
    ensures var synced := Find(History(rs), "PasswordSynced");
            && (synced.Some? <==> exists i :: 0 <= i < |rs| && rs[i].synced)
            && (synced.Some? ==> synced.value.status && synced.value.reason == "SuccessfulPasswordSync" && synced.value.message == "")
    decreases |rs|
  {
    if rs != [] {
      var before, r := rs[..|rs|-1], rs[|rs|-1];
      var cs := History(before);
      ConditionWords(before);
      assert forall i :: 0 <= i < |before| ==> before[i] == rs[i];
      var p := PasswordSynced(cs, r.now);
      UpsertedFinds(cs, p, "PasswordSynced");
      var cs' := if r.synced then Upserted(cs, p) else cs;
      var c := if r.ready then Ready(cs', r.now) else NotReady(r.message, cs', r.now);
      UpsertedFinds(cs', c, "Ready");
      UpsertedFinds(cs', c, "PasswordSynced");
    }
  }
}
