// The schedule endpoint of app/api/schedule/route.ts: a module-level registry of scheduled
// automations, appended to by POST and listed by GET.

module ScheduleRoute {
  import opened Common

  const MsPerDay := 86400000
  /** 09:00:00.000 as milliseconds since local midnight. */
  const NineAm := 9 * 60 * 60 * 1000

  /** A local date-time: a day number and the milliseconds since that day's midnight. */
  datatype Timestamp = Timestamp(day: int, ms: int)

  predicate ValidTime(t: Timestamp) {
    0 <= t.ms < MsPerDay
  }

  /** Milliseconds since the epoch of the day numbering, the order `<=` on `Date`s compares. */
  function EpochMs(t: Timestamp): int {
    t.day * MsPerDay + t.ms
  }

  /** The fields of the JSON body; a field the body leaves out is None. */
  datatype ScheduleBody = ScheduleBody(niche: Option<string>, uploadsPerDay: Option<int>)

  datatype ScheduledTask = ScheduledTask(niche: string, uploadsPerDay: int, nextRun: Timestamp)

  datatype ScheduleResponse =
    | Scheduled(uploadsPerDay: int, nextRun: Timestamp)
    | Rejected(status: int, error: string)

  const RequiredMessage := "Niche and uploadsPerDay are required"
  const InternalError := "Internal server error"

  /** `!niche || !uploadsPerDay` is false: both present, the niche non-empty, the count non-zero.
      Only zero is refused as a count; a negative count is accepted. */
  predicate Accepts(body: ScheduleBody): (ok: bool)
    ensures ok ==> body.niche.Some? && body.niche.value != "" && body.uploadsPerDay.Some?
    ensures body.niche == Some("") || body.uploadsPerDay == Some(0) ==> !ok
    ensures Truthy(body.niche) && body.uploadsPerDay.Some? && body.uploadsPerDay.value < 0 ==> ok
  {
    Truthy(body.niche) && body.uploadsPerDay.Some? && body.uploadsPerDay.value != 0
  }

  /** The first 09:00 strictly after `now`. */
  function NextNineAm(now: Timestamp): (r: Timestamp)
    requires ValidTime(now)
    ensures ValidTime(r) && r.ms == NineAm
    ensures EpochMs(now) < EpochMs(r)
    ensures r.day == now.day || r.day == now.day + 1
  {
    if NineAm <= now.ms then Timestamp(now.day + 1, NineAm) else Timestamp(now.day, NineAm)
  }

  /** No 09:00 after `now` comes before `NextNineAm(now)`. */
  lemma NextNineAmIsEarliest(now: Timestamp, t: Timestamp)
    requires ValidTime(now) && ValidTime(t) && t.ms == NineAm && EpochMs(now) < EpochMs(t)
    ensures EpochMs(NextNineAm(now)) <= EpochMs(t)
  {
    var k := t.day - now.day;
    assert EpochMs(t) - EpochMs(now) == k * MsPerDay + NineAm - now.ms;
    assert k >= 0;
  }

  /** `new Date()`, `setHours(9, 0, 0, 0)`, and `setDate(getDate() + 1)` when that is not
      after now. Both readings of the clock are the single instant `now`. */
  method NextRun(now: Timestamp) returns (nextRun: Timestamp)
    requires ValidTime(now)
    ensures nextRun == NextNineAm(now)
  {
    nextRun := now;
    nextRun := nextRun.(ms := NineAm);
    if EpochMs(nextRun) <= EpochMs(now) {
      nextRun := nextRun.(day := nextRun.day + 1);
    }
  }

  /** The module-level `scheduledTasks` array. */
  class ScheduleRegistry {
    var tasks: seq<ScheduledTask>

    constructor ()
      ensures tasks == []
    {
      tasks := [];
    }

    /** `POST`: `body` is the outcome of `request.json()`. A rejected request leaves the
        registry as it was; an accepted one appends exactly one task, even for a niche that is
        already scheduled. */
    method Post(body: Step<ScheduleBody>, now: Timestamp) returns (response: ScheduleResponse)
      requires ValidTime(now)
      modifies this
      ensures old(tasks) <= tasks && |tasks| <= |old(tasks)| + 1
      ensures body.Threw? ==>
        response == Rejected(500, MessageOr(body.thrown, InternalError)) && tasks == old(tasks)
      ensures body.Done? && !Accepts(body.value) ==>
        response == Rejected(400, RequiredMessage) && tasks == old(tasks)
      ensures body.Done? && Accepts(body.value) ==>
        var task := ScheduledTask(body.value.niche.value, body.value.uploadsPerDay.value, NextNineAm(now));
        response == Scheduled(task.uploadsPerDay, task.nextRun) && tasks == old(tasks) + [task]
    {
      match body
      case Threw(e) =>
        response := Rejected(500, MessageOr(e, InternalError));
      case Done(b) =>
        if !Truthy(b.niche) || b.uploadsPerDay.None? || b.uploadsPerDay.value == 0 {
          response := Rejected(400, RequiredMessage);
          return;
        }
        var nextRun := NextRun(now);
        tasks := tasks + [ScheduledTask(b.niche.value, b.uploadsPerDay.value, nextRun)];
        response := Scheduled(b.uploadsPerDay.value, nextRun);
    }

    /** `GET`: every task, in the order it was scheduled. */
    method Get() returns (listing: seq<ScheduledTask>)
      ensures |listing| == |tasks|
      ensures forall i :: 0 <= i < |tasks| ==> listing[i] == tasks[i]
    {
      listing := tasks;
    }
  }

  /** Two accepted requests for the same niche on a fresh registry are kept as two equal
      tasks rather than merged. */
  method ScheduleTwice(niche: string, uploadsPerDay: int, now: Timestamp) returns (listing: seq<ScheduledTask>)
    requires niche != "" && uploadsPerDay != 0 && ValidTime(now)
    ensures |listing| == 2 && listing[0] == listing[1]
    ensures listing[0] == ScheduledTask(niche, uploadsPerDay, NextNineAm(now))
  {
    var registry := new ScheduleRegistry();
    var body := Done(ScheduleBody(Some(niche), Some(uploadsPerDay)));
    var first := registry.Post(body, now);
    var second := registry.Post(body, now);
    listing := registry.Get();
  }
}
