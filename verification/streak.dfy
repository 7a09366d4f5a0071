/**
 The daily streak bookkeeping of cron_jobs/evaluate.js: count today's wins and
 losses, extend or reset the streak, and append one history record.
 */
module Streak {
  import opened JsValues
  import opened Seqs

  /** A settled ticket result; `win` is the truthiness of the stored flag. */
  datatype TicketResult = TicketResult(date: Option<string>, win: bool)

  datatype DayRecord = DayRecord(date: string, wins: nat, losses: nat)

  datatype Evaluation = Evaluation(history: seq<DayRecord>, streak: int)

  /** The stored evaluation when none exists yet. */
  const INITIAL: Evaluation := Evaluation([], 0)

  predicate StartsWith(s: string, prefix: string) {
    |prefix| <= |s| && s[..|prefix|] == prefix
  }

  /** `r.date?.startsWith(today)`: a missing date never matches. */
  function OnDay(today: string): TicketResult -> bool {
    (r: TicketResult) => r.date.Some? && StartsWith(r.date.value, today)
  }

  function IsWin(r: TicketResult): bool {
    r.win
  }

  function IsLoss(r: TicketResult): bool {
    !r.win
  }

  /** `evaluateTickets(results, evaluation)` with the date string of today passed in. */
  function EvaluateTickets(results: seq<TicketResult>, evaluation: Evaluation, today: string): (r: Evaluation)
    ensures |r.history| == |evaluation.history| + 1
    ensures r.history[..|evaluation.history|] == evaluation.history
    ensures r.history[|evaluation.history|].date == today
    ensures r.history[|evaluation.history|].wins + r.history[|evaluation.history|].losses == |Filter(OnDay(today), results)|
    ensures (forall i :: 0 <= i < |results| && OnDay(today)(results[i]) ==> results[i].win) ==> r.streak == evaluation.streak + 1
    ensures !(forall i :: 0 <= i < |results| && OnDay(today)(results[i]) ==> results[i].win) ==> r.streak == 0
  {
    var day := Filter(OnDay(today), results);
    var wins := |Filter(IsWin, day)|;
    var losses := |day| - wins;
    AllWinsIff(results, today);
    var streak := if wins == |day| then evaluation.streak + 1 else 0;
    Evaluation(evaluation.history + [DayRecord(today, wins, losses)], streak)
  }

  lemma AllWinsIff(results: seq<TicketResult>, today: string)
    ensures |Filter(IsWin, Filter(OnDay(today), results))| == |Filter(OnDay(today), results)| <==>
      forall i :: 0 <= i < |results| && OnDay(today)(results[i]) ==> results[i].win
  {
    var day := Filter(OnDay(today), results);
    FilterKeepsLength(IsWin, day);
    FilterMembers(OnDay(today), results);
    if forall j :: 0 <= j < |day| ==> IsWin(day[j]) {
      forall i | 0 <= i < |results| && OnDay(today)(results[i])
        ensures results[i].win
      {
        assert results[i] in day;
      }
    }
  }

  /** The losses recorded are the day's results that are not wins. */
  lemma LossesAreNonWins(results: seq<TicketResult>, evaluation: Evaluation, today: string)
    ensures EvaluateTickets(results, evaluation, today).history[|evaluation.history|].losses
      == |Filter(IsLoss, Filter(OnDay(today), results))|
  {
    var day := Filter(OnDay(today), results);
    FilterPartition(IsWin, IsLoss, day);
    assert |multiset(Filter(IsWin, day))| + |multiset(Filter(IsLoss, day))| == |multiset(day)|;
  }

  /** Results of other days, or without a date, change nothing. */
  lemma OtherDaysIgnored(results: seq<TicketResult>, extra: seq<TicketResult>, evaluation: Evaluation, today: string)
    requires forall i :: 0 <= i < |extra| ==> !OnDay(today)(extra[i])
    ensures EvaluateTickets(results + extra, evaluation, today) == EvaluateTickets(results, evaluation, today)
  {
    FilterAppend(OnDay(today), results, extra);
    FilterNone(OnDay(today), extra);
    assert Filter(OnDay(today), results) + [] == Filter(OnDay(today), results);
  }

  /** A day without results counts as an all-win day: the streak still grows. */
  lemma EmptyDayExtends(evaluation: Evaluation, today: string)
    ensures EvaluateTickets([], evaluation, today).streak == evaluation.streak + 1
    ensures EvaluateTickets([], evaluation, today).history[|evaluation.history|] == DayRecord(today, 0, 0)
  {
  }
}
