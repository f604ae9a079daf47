/**
 * The emitted `build`, `build_report` and `explain` bodies
 * (statum-macros/src/validators/emission/into_machine.rs, checks.rs).
 */
module Rehydrate {
  import opened Common

  /**
   * One validator: its method name, the state it rebuilds, whether rejections are reported, and its
   * verdict on a row. An accepted row gives the rebuilt machine state.
   */
  datatype Validator<!R, !M, !J> = Validator(fnName: string, variant: string, diagnostic: bool, check: R -> Result<M, J>)

  datatype InvalidState = InvalidState

  datatype Attempt<J> = Attempt(validator: string, targetState: string, matched: bool, rejection: Option<J>)

  datatype Ambiguity = NotChecked | Unambiguous | Ambiguous(matchedStates: seq<string>)

  datatype RebuildReport<M, J> = RebuildReport(
    candidates: seq<string>, ambiguity: Ambiguity, attempts: seq<Attempt<J>>, result: Result<M, InvalidState>)

  function Accepts<R, M, J>(v: Validator<R, M, J>, row: R): bool {
    v.check(row).Ok?
  }

  /** Position of the first accepting validator. */
  function FirstAccepting<R, M, J>(vs: seq<Validator<R, M, J>>, row: R): (r: Option<nat>)
    ensures r.Some? ==> r.value < |vs| && Accepts(vs[r.value], row) && forall j :: 0 <= j < r.value ==> !Accepts(vs[j], row)
    ensures r.None? ==> forall j :: 0 <= j < |vs| ==> !Accepts(vs[j], row)
  {
    if vs == [] then None
    else if Accepts(vs[0], row) then Some(0)
    else
      assert forall j :: 0 < j < |vs| ==> vs[j] == vs[1..][j - 1];
      match FirstAccepting(vs[1..], row) case None => None case Some(i) => Some(i + 1)
  }

  /** What `build` returns: the first accepting validator's state. */
  function Rebuilt<R, M, J>(vs: seq<Validator<R, M, J>>, row: R): Result<M, InvalidState> {
    match FirstAccepting(vs, row)
    case Some(i) => Ok(vs[i].check(row).value)
    case None => Err(InvalidState)
  }

  function AttemptOf<R, M, J>(v: Validator<R, M, J>, row: R): Attempt<J> {
    match v.check(row)
    case Ok(_) => Attempt(v.fnName, v.variant, true, None)
    case Err(rejection) => Attempt(v.fnName, v.variant, false, if v.diagnostic then Some(rejection) else None)
  }

  function AttemptsOf<R, M, J>(vs: seq<Validator<R, M, J>>, row: R): (r: seq<Attempt<J>>)
    ensures |r| == |vs| && forall i :: 0 <= i < |r| ==> r[i] == AttemptOf(vs[i], row)
  {
    Map((v: Validator<R, M, J>) => AttemptOf(v, row), vs)
  }

  function Variants<R, M, J>(vs: seq<Validator<R, M, J>>): (r: seq<string>)
    ensures |r| == |vs| && forall i :: 0 <= i < |r| ==> r[i] == vs[i].variant
  {
    Map((v: Validator<R, M, J>) => v.variant, vs)
  }

  /** The states whose validators accept, in order. */
  function MatchedStates<R, M, J>(vs: seq<Validator<R, M, J>>, row: R): seq<string> {
    if vs == [] then []
    else MatchedStates(vs[..|vs| - 1], row)
         + if Accepts(vs[|vs| - 1], row) then [vs[|vs| - 1].variant] else []
  }

  ghost predicate DistinctVariants<R, M, J>(vs: seq<Validator<R, M, J>>) {
    forall i, j :: 0 <= i < j < |vs| ==> vs[i].variant != vs[j].variant
  }

  // ---- The emitted methods ----

  method Build<R, M, J>(vs: seq<Validator<R, M, J>>, row: R) returns (result: Result<M, InvalidState>)
    ensures result == Rebuilt(vs, row)
  {
    for i := 0 to |vs|
      invariant forall j :: 0 <= j < i ==> !Accepts(vs[j], row)
    {
      var verdict := vs[i].check(row);
      if verdict.Ok? {
        return Ok(verdict.value);
      }
    }
    return Err(InvalidState);
  }

  /** Stops at the first match: the attempts are exactly those up to and including it. */
  method BuildReport<R, M, J>(vs: seq<Validator<R, M, J>>, row: R) returns (report: RebuildReport<M, J>)
    ensures report.result == Rebuilt(vs, row) && report.ambiguity == NotChecked && report.candidates == Variants(vs)
    ensures report.attempts == match FirstAccepting(vs, row)
                               case Some(i) => AttemptsOf(vs[..i + 1], row)
                               case None => AttemptsOf(vs, row)
  {
    var attempts: seq<Attempt<J>> := [];
    for i := 0 to |vs|
      invariant attempts == AttemptsOf(vs[..i], row)
      invariant forall j :: 0 <= j < i ==> !Accepts(vs[j], row)
    {
      var v := vs[i];
      var verdict := v.check(row);
      if verdict.Ok? {
        attempts := attempts + [Attempt(v.fnName, v.variant, true, None)];
        assert FirstAccepting(vs, row) == Some(i);
        assert attempts == AttemptsOf(vs[..i + 1], row);
        return RebuildReport(Variants(vs), NotChecked, attempts, Ok(verdict.value));
      }
      attempts := attempts + [Attempt(v.fnName, v.variant, false, if v.diagnostic then Some(verdict.error) else None)];
      assert attempts == AttemptsOf(vs[..i + 1], row);
    }
    assert vs[..|vs|] == vs;
    return RebuildReport(Variants(vs), NotChecked, attempts, Err(InvalidState));
  }

  /** The finalizer arms, tried in order: the single matched state picks its validator's stored machine. */
  function Finalized<R, M, J>(vs: seq<Validator<R, M, J>>, row: R, matched: seq<string>): Result<M, InvalidState> {
    if vs == [] || |matched| != 1 then Err(InvalidState)
    else if vs[0].variant == matched[0] && Accepts(vs[0], row) then Ok(vs[0].check(row).value)
    else Finalized(vs[1..], row, matched)
  }

  /** Every accepting validator's machine is in its own slot. */
  ghost predicate StoredUpTo<R, M, J>(vs: seq<Validator<R, M, J>>, row: R, stored: map<nat, M>, n: nat)
    requires n <= |vs|
  {
    && (forall j: nat :: j in stored <==> j < n && Accepts(vs[j], row))
    && (forall j: nat :: j in stored ==> Ok(stored[j]) == vs[j].check(row))
  }

  /** The finalizer arms in turn, for the one matched state. */
  method PickStored<R, M, J>(vs: seq<Validator<R, M, J>>, row: R, matched: seq<string>, stored: map<nat, M>)
    returns (result: Result<M, InvalidState>)
    requires DistinctVariants(vs) && matched == MatchedStates(vs, row) && StoredUpTo(vs, row, stored, |vs|)
    ensures result == Finalized(vs, row, matched)
  {
    if |matched| != 1 {
      return Err(InvalidState);
    }
    var i := 0;
    assert vs[0..] == vs;
    while i < |vs| && vs[i].variant != matched[0]
      invariant 0 <= i <= |vs|
      invariant Finalized(vs, row, matched) == Finalized(vs[i..], row, matched)
      invariant forall j :: 0 <= j < i ==> vs[j].variant != matched[0]
    {
      assert vs[i..][1..] == vs[i + 1..];
      i := i + 1;
    }
    MatchedStatesAccept(vs, row, matched[0]);
    return if i < |vs| then Ok(stored[i]) else Err(InvalidState);
  }

  method Explain<R, M, J>(vs: seq<Validator<R, M, J>>, row: R) returns (report: RebuildReport<M, J>)
    requires DistinctVariants(vs)
    ensures report.attempts == AttemptsOf(vs, row) && report.candidates == Variants(vs)
    ensures report.result == Finalized(vs, row, MatchedStates(vs, row))
    ensures report.ambiguity == if |MatchedStates(vs, row)| > 1 then Ambiguous(MatchedStates(vs, row)) else Unambiguous
  {
    var attempts: seq<Attempt<J>> := [];
    var matched: seq<string> := [];
    var stored: map<nat, M> := map[];
    for i := 0 to |vs|
      invariant attempts == AttemptsOf(vs[..i], row)
      invariant matched == MatchedStates(vs[..i], row)
      invariant StoredUpTo(vs, row, stored, i)
    {
      var v := vs[i];
      assert vs[..i + 1][..i] == vs[..i];
      match v.check(row) {
        case Ok(machine) =>
          stored := stored[i := machine];
          attempts := attempts + [Attempt(v.fnName, v.variant, true, None)];
          matched := matched + [v.variant];
        case Err(rejection) =>
          attempts := attempts + [Attempt(v.fnName, v.variant, false, if v.diagnostic then Some(rejection) else None)];
      }
      assert attempts == AttemptsOf(vs[..i + 1], row);
    }
    assert vs[..|vs|] == vs;
    var result := PickStored(vs, row, matched, stored);
    var ambiguity := if |matched| > 1 then Ambiguous(matched) else Unambiguous;
    return RebuildReport(Variants(vs), ambiguity, attempts, result);
  }

  // ---- What the three have in common ----

  lemma {:induction false} MatchedStatesAccept<R, M, J>(vs: seq<Validator<R, M, J>>, row: R, state: string)
    ensures state in MatchedStates(vs, row) <==> exists i :: 0 <= i < |vs| && vs[i].variant == state && Accepts(vs[i], row)
  {
    if vs == [] {
    } else {
      var n := |vs| - 1;
      MatchedStatesAccept(vs[..n], row, state);
      if i :| 0 <= i < |vs| && vs[i].variant == state && Accepts(vs[i], row) {
        if i < n { assert vs[..n][i].variant == state; }
      }
      if i :| 0 <= i < n && vs[..n][i].variant == state && Accepts(vs[..n][i], row) {
        assert vs[i].variant == state;
      }
    }
  }

  ghost predicate ExactlyOneAccepts<R, M, J>(vs: seq<Validator<R, M, J>>, row: R) {
    exists i :: OnlyAccepts(vs, row, i)
  }

  ghost predicate OnlyAccepts<R, M, J>(vs: seq<Validator<R, M, J>>, row: R, i: nat) {
    i < |vs| && Accepts(vs[i], row) && forall j :: 0 <= j < |vs| && j != i ==> !Accepts(vs[j], row)
  }

  lemma {:induction false} NoneAccepts<R, M, J>(vs: seq<Validator<R, M, J>>, row: R)
    ensures MatchedStates(vs, row) == [] <==> forall i :: 0 <= i < |vs| ==> !Accepts(vs[i], row)
  {
    if vs == [] {
    } else {
      var n := |vs| - 1;
      NoneAccepts(vs[..n], row);
      assert forall i :: 0 <= i < n ==> vs[..n][i] == vs[i];
    }
  }

  lemma {:induction false} OneMatchIsOnly<R, M, J>(vs: seq<Validator<R, M, J>>, row: R) returns (i: nat)
    requires |MatchedStates(vs, row)| == 1
    ensures OnlyAccepts(vs, row, i)
  {
    var n := |vs| - 1;
    var front := vs[..n];
    if Accepts(vs[n], row) {
      NoneAccepts(front, row);
      i := n;
      assert forall j :: 0 <= j < n ==> vs[j] == front[j];
    } else {
      i := OneMatchIsOnly(front, row);
      assert forall j :: 0 <= j < n ==> vs[j] == front[j];
    }
  }

  lemma {:induction false} OnlyIsOneMatch<R, M, J>(vs: seq<Validator<R, M, J>>, row: R, i: nat)
    requires OnlyAccepts(vs, row, i)
    ensures MatchedStates(vs, row) == [vs[i].variant]
  {
    var n := |vs| - 1;
    var front := vs[..n];
    assert forall j :: 0 <= j < n ==> vs[j] == front[j];
    if i == n {
      NoneAccepts(front, row);
    } else {
      OnlyIsOneMatch(front, row, i);
    }
  }

  lemma {:induction false} FinalizedPicks<R, M, J>(vs: seq<Validator<R, M, J>>, row: R, matched: seq<string>, i: nat)
    requires DistinctVariants(vs) && i < |vs| && Accepts(vs[i], row) && matched == [vs[i].variant]
    ensures Finalized(vs, row, matched) == Ok(vs[i].check(row).value)
  {
    if i == 0 {
    } else {
      assert vs[1..][i - 1] == vs[i];
      assert forall a :: 0 < a < |vs| ==> vs[a] == vs[1..][a - 1];
      FinalizedPicks(vs[1..], row, matched, i - 1);
    }
  }

  /**
   * With one validator per state, `explain` succeeds exactly when one validator accepts, and then
   * agrees with `build`; it fails without ambiguity exactly when `build` fails.
   */
  lemma ExplainAgreesWithBuild<R, M, J>(vs: seq<Validator<R, M, J>>, row: R)
    requires DistinctVariants(vs)
    ensures var matched := MatchedStates(vs, row);
            && (Finalized(vs, row, matched).Ok? <==> ExactlyOneAccepts(vs, row))
            && (ExactlyOneAccepts(vs, row) ==> Finalized(vs, row, matched) == Rebuilt(vs, row))
            && (Finalized(vs, row, matched).Err? && |matched| <= 1 <==> Rebuilt(vs, row).Err?)
  {
    var matched := MatchedStates(vs, row);
    NoneAccepts(vs, row);
    if |matched| == 1 {
      var i := OneMatchIsOnly(vs, row);
      OnlyIsOneMatch(vs, row, i);
      FinalizedPicks(vs, row, matched, i);
    } else if i :| OnlyAccepts(vs, row, i) {
      OnlyIsOneMatch(vs, row, i);
    }
  }

  /** An attempt is matched exactly when its validator accepts, and carries the rejection exactly when that validator reports one. */
  lemma AttemptsTellWhy<R, M, J>(vs: seq<Validator<R, M, J>>, row: R, i: nat)
    requires i < |vs|
    ensures var attempt := AttemptsOf(vs, row)[i];
            && attempt.validator == vs[i].fnName && attempt.targetState == vs[i].variant
            && (attempt.matched <==> Accepts(vs[i], row))
            && (forall rejection :: attempt.rejection == Some(rejection) <==> vs[i].diagnostic && vs[i].check(row) == Err(rejection))
  {
  }
}
