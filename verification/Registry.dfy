/** wadjit.go and watcher.go: the registry of watchers and their life cycle, one call at a time. What
    tasks and the job scheduler answer is a parameter of each call. */
module Registry {
  import opened Basics

  /** The watcher's done channel. */
  datatype DoneChan = NilChan | OpenChan | ClosedChan

  /** What each task, by position, answers to one call. */
  type TaskAnswers = nat -> Option<Error>

  /** The errors of the first n tasks, joined in task order. */
  function Joined(answers: TaskAnswers, n: nat): seq<Error> {
    if n == 0 then []
    else Joined(answers, n - 1) + if answers(n - 1).Some? then [answers(n - 1).value] else []
  }

  lemma {:induction false} JoinedEmptyIff(answers: TaskAnswers, n: nat)
    ensures Joined(answers, n) == [] <==> forall i: nat :: i < n ==> answers(i).None?
  {
    if n > 0 {
      JoinedEmptyIff(answers, n - 1);
    }
  }

  /** Those of the tasks that answer with an error, in order. */
  ghost predicate Erring(answers: TaskAnswers, n: nat, order: seq<nat>) {
    && (forall j, k :: 0 <= j < k < |order| ==> order[j] < order[k])
    && (forall i: nat :: i in order <==> i < n && answers(i).Some?)
  }

  /** Joining keeps every error, and their order. */
  lemma {:induction false} JoinedIs(answers: TaskAnswers, n: nat) returns (order: seq<nat>)
    ensures Erring(answers, n, order) && |Joined(answers, n)| == |order|
    ensures forall k :: 0 <= k < |order| ==> answers(order[k]) == Some(Joined(answers, n)[k])
  {
    order := [];
    if n > 0 {
      order := JoinedIs(answers, n - 1);
      if answers(n - 1).Some? {
        assert forall k :: 0 <= k < |order| ==> order[k] in order;
        order := order + [n - 1];
      }
    }
  }

  class Watcher {
    const id: string
    const cadence: Duration
    const tasks: nat
    var done: DoneChan
    ghost var closes: nat

    /** The done channel is closed by close and never opened again. */
    ghost predicate Valid()
      reads this
    {
      closes == if done.ClosedChan? then 1 else 0
    }

    constructor (id: string, cadence: Duration, tasks: nat)
      ensures Valid() && this.id == id && this.cadence == cadence && this.tasks == tasks
      ensures done == OpenChan && closes == 0
    {
      this.id, this.cadence, this.tasks := id, cadence, tasks;
      done, closes := OpenChan, 0;
    }

    ghost predicate Admissible(answers: TaskAnswers)
      reads this
    {
      id != "" && cadence > 0 && tasks > 0 && done.OpenChan? && forall i: nat :: i < tasks ==> answers(i).None?
    }

    method Validate(answers: TaskAnswers) returns (errs: seq<Error>)
      ensures errs == [] <==> Admissible(answers)
      ensures errs == [] <==>
        id != "" && cadence > 0 && tasks > 0 && done.OpenChan? && forall i: nat :: i < tasks ==> answers(i).None?
      ensures var own := |errs| - |Joined(answers, tasks)|; own >= 0 && errs[own..] == Joined(answers, tasks)
    {
      errs := [];
      if id == "" {
        errs := errs + ["var ID must not be nil"];
      }
      if cadence <= 0 {
        errs := errs + ["var Cadence must be greater than 0"];
      }
      if tasks == 0 {
        errs := errs + ["var Tasks must not be nil or empty"];
      }
      if done.NilChan? {
        errs := errs + ["doneChan must not be nil"];
      } else if done.ClosedChan? {
        errs := errs + ["doneChan must not be closed"];
      }
      var own := errs;
      JoinedEmptyIff(answers, tasks);
      var taskErrs := JoinErrors(answers);
      errs := own + taskErrs;
    }

    /** The loop over the tasks that validate, start and close share. */
    method JoinErrors(answers: TaskAnswers) returns (errs: seq<Error>)
      ensures errs == Joined(answers, tasks)
    {
      errs := [];
      for i := 0 to tasks
        invariant errs == Joined(answers, i)
      {
        if answers(i).Some? {
          errs := errs + [answers(i).value];
        }
      }
    }

    /** Closing a done channel that is not open would panic. Every task is closed, whatever the ones
        before it answered. */
    method Close(answers: TaskAnswers) returns (errs: seq<Error>)
      requires Valid() && done.OpenChan?
      modifies this
      ensures Valid() && done.ClosedChan? && closes == old(closes) + 1
      ensures errs == Joined(answers, tasks)
    {
      done, closes := ClosedChan, closes + 1;
      errs := JoinErrors(answers);
    }

    method Start(hasChannel: bool, answers: TaskAnswers) returns (errs: seq<Error>)
      requires Valid()
      modifies this
      ensures Valid() && closes == old(closes)
      ensures done == if old(done).NilChan? then OpenChan else old(done)
      ensures errs == (if hasChannel then [] else ["response channel is nil"]) + Joined(answers, tasks)
    {
      errs := if hasChannel then [] else ["response channel is nil"];
      if done.NilChan? {
        done := OpenChan;
      }
      var taskErrs := JoinErrors(answers);
      errs := errs + taskErrs;
    }
  }

  /** What the tasks and the scheduler answer while one watcher is added, or removed. */
  datatype AddAnswers = AddAnswers(validate: TaskAnswers, start: TaskAnswers, schedule: Option<Error>)
  datatype RemoveAnswers = RemoveAnswers(close: TaskAnswers, removeJob: Option<Error>)

  predicate CleanRemoval(tasks: nat, a: RemoveAnswers) { Joined(a.close, tasks) == [] && a.removeJob.None? }

  lemma CleanRemovalIff(tasks: nat, a: RemoveAnswers)
    ensures CleanRemoval(tasks, a) <==> (forall i: nat :: i < tasks ==> a.close(i).None?) && a.removeJob.None?
  {
    JoinedEmptyIff(a.close, tasks);
  }

  /** What removing a watcher answers: the errors of its tasks, or else the scheduler's. */
  function RemovalErrors(tasks: nat, a: RemoveAnswers): seq<Error> {
    var errs := Joined(a.close, tasks);
    if errs == [] && a.removeJob.Some? then [a.removeJob.value] else errs
  }

  /** The errors of removing the first n of these watchers, one after another. */
  ghost function AllErrors(found: map<string, Watcher>, ids: seq<string>, n: nat, answers: string -> RemoveAnswers)
    : seq<Error>
    requires n <= |ids|
  {
    if n == 0 then []
    else AllErrors(found, ids, n - 1, answers) +
         if ids[n - 1] in found then RemovalErrors(found[ids[n - 1]].tasks, answers(ids[n - 1])) else []
  }

  /** These are the ids of the watchers found, each once. */
  ghost predicate Lists(ids: seq<string>, found: map<string, Watcher>) {
    && (forall id :: id in ids <==> id in found)
    && (forall i, j :: 0 <= i < j < |ids| ==> ids[i] != ids[j])
  }

  /** The watchers found under these ids. */
  ghost function Filed(found: map<string, Watcher>, ids: set<string>): set<Watcher> {
    set id | id in found && id in ids :: found[id]
  }

  /** Those of the ids whose removal meets no failure. */
  ghost function Cleared(found: map<string, Watcher>, ids: set<string>, answers: string -> RemoveAnswers): set<string> {
    set id | id in found && id in ids && CleanRemoval(found[id].tasks, answers(id))
  }

  ghost predicate AllClean(found: map<string, Watcher>, ids: set<string>, answers: string -> RemoveAnswers) {
    forall id :: id in found && id in ids ==> CleanRemoval(found[id].tasks, answers(id))
  }

  /** The first n of these ids. */
  function Firsts(ids: seq<string>, n: nat): set<string>
    requires n <= |ids|
  {
    set k | 0 <= k < n :: ids[k]
  }

  lemma NextOfFirsts(ids: seq<string>, n: nat)
    requires n < |ids| && forall i, j :: 0 <= i < j < |ids| ==> ids[i] != ids[j]
    ensures ids[n] !in Firsts(ids, n) && Firsts(ids, n + 1) == Firsts(ids, n) + {ids[n]}
  {
  }

  lemma OneMore(found: map<string, Watcher>, ids: set<string>, id: string, answers: string -> RemoveAnswers)
    requires id in found
    ensures AllClean(found, ids + {id}, answers) <==>
            AllClean(found, ids, answers) && CleanRemoval(found[id].tasks, answers(id))
    ensures Filed(found, ids + {id}) == Filed(found, ids) + {found[id]}
    ensures Cleared(found, ids + {id}, answers)
         == Cleared(found, ids, answers) + if CleanRemoval(found[id].tasks, answers(id)) then {id} else {}
  {
    var more := ids + {id};
    assert forall k :: k in more <==> k in ids || k == id;
    assert id in more;
    forall w | w in Filed(found, ids) + {found[id]} ensures w in Filed(found, more) {
      var k :| k in found && k in more && found[k] == w;
    }
  }

  class Wadjit {
    var watchers: map<string, Watcher>
    /** Ids of the jobs the scheduler holds. */
    var scheduled: set<string>
    var closed: bool
    var closeErrs: seq<Error>

    /** Every watcher that was ever removed. */
    ghost var retired: set<Watcher>
    /** Starts, schedules and removals that failed so far. */
    ghost var failures: nat

    /** A registered watcher is filed under its own id and its done channel is open; a removed one was
        closed once; and without failures the scheduler runs exactly the registered watchers. */
    ghost predicate Valid()
      reads this, watchers.Values, retired
    {
      && (forall id :: id in watchers ==>
            watchers[id].id == id && watchers[id].Valid() && watchers[id].done.OpenChan? && watchers[id] !in retired)
      && (forall w :: w in retired ==> w.Valid() && w.done.ClosedChan?)
      && (failures == 0 ==> watchers.Keys == scheduled)
    }

    constructor ()
      ensures Valid() && watchers == map[] && scheduled == {} && !closed && retired == {} && failures == 0
    {
      watchers, scheduled, closed, closeErrs := map[], {}, false, [];
      retired, failures := {}, 0;
    }

    /** Admits a watcher that validates under a new id. A watcher that fails to start or to be scheduled
        stays registered without a job. A closed watcher does not validate. */
    method AddWatcher(w: Watcher?, a: AddAnswers) returns (errs: seq<Error>)
      requires Valid() && (w != null ==> w.Valid())
      modifies this`watchers, this`scheduled, this`failures, w
      ensures Valid() && retired == old(retired)
      ensures w != null ==> w.Valid() && w.done == old(w.done)
      ensures w in retired ==> watchers == old(watchers) && errs != []
      ensures var admitted := w != null && old(w.Admissible(a.validate)) && w.id !in old(watchers);
        if !admitted then
          errs != [] && watchers == old(watchers) && scheduled == old(scheduled) && failures == old(failures)
        else
          var started := Joined(a.start, w.tasks) == [] && a.schedule.None?;
          && watchers == old(watchers)[w.id := w]
          && errs == (if Joined(a.start, w.tasks) != [] then Joined(a.start, w.tasks)
                      else if a.schedule.Some? then [a.schedule.value] else [])
          && scheduled == (if started then old(scheduled) + {w.id} else old(scheduled))
          && failures == (if started then old(failures) else old(failures) + 1)
    {
      if w == null {
        return ["watcher is nil"];
      }
      errs := w.Validate(a.validate);
      if errs != [] {
        return;
      }
      if w.id in watchers {
        return ["watcher already exists"];
      }
      watchers := watchers[w.id := w];
      errs := w.Start(true, a.start);
      if errs != [] {
        failures := failures + 1;
        return;
      }
      if a.schedule.Some? {
        failures := failures + 1;
        return [a.schedule.value];
      }
      scheduled := scheduled + {w.id};
    }

    /** Takes the watcher out first, then closes it, then its job. Whatever fails on the way, the
        watcher is gone and closed; the job is gone only if nothing failed. */
    method RemoveWatcher(id: string, a: RemoveAnswers) returns (errs: seq<Error>)
      requires Valid()
      modifies this`watchers, this`scheduled, this`retired, this`failures
      modifies if id in watchers then {watchers[id]} else {}
      ensures Valid() && closed == old(closed)
      ensures id !in old(watchers) ==>
        && errs != [] && watchers == old(watchers) && scheduled == old(scheduled)
        && retired == old(retired) && failures == old(failures)
      ensures id in old(watchers) ==>
        var w := old(watchers)[id];
        && watchers == old(watchers) - {id} && retired == old(retired) + {w}
        && w.closes == 1
        && errs == (if Joined(a.close, w.tasks) != [] then Joined(a.close, w.tasks)
                    else if a.removeJob.Some? then [a.removeJob.value] else [])
        && scheduled == (if errs == [] then old(scheduled) - {id} else old(scheduled))
        && failures == (if errs == [] then old(failures) else old(failures) + 1)
    {
      if id !in watchers {
        return ["watcher not found"];
      }
      var w := watchers[id];
      watchers := watchers - {id};
      errs := w.Close(a.close);
      retired := retired + {w};
      if errs == [] {
        if a.removeJob.Some? {
          errs := [a.removeJob.value];
        } else {
          scheduled := scheduled - {id};
        }
      }
      if errs != [] {
        failures := failures + 1;
      }
    }

    /** The registered ids, each once, in no particular order. */
    method WatcherIDs() returns (ids: seq<string>)
      ensures Lists(ids, watchers)
      ensures forall id :: id in ids <==> id in watchers
      ensures forall i, j :: 0 <= i < j < |ids| ==> ids[i] != ids[j]
    {
      ids := [];
      var left := watchers.Keys;
      while left != {}
        invariant left <= watchers.Keys
        invariant forall id :: id in ids <==> id in watchers && id !in left
        invariant forall i, j :: 0 <= i < j < |ids| ==> ids[i] != ids[j]
        decreases left
      {
        var id :| id in left;
        left := left - {id};
        ids := ids + [id];
      }
    }

    /** How far the loop below has got with the watchers it found, once those under `gone` are removed. */
    ghost predicate Removed(found: map<string, Watcher>, jobs: set<string>, past: set<Watcher>, gone: set<string>,
                            answers: string -> RemoveAnswers)
      reads this
    {
      && watchers == found - gone
      && retired == past + Filed(found, gone)
      && scheduled == jobs - Cleared(found, gone, answers)
    }

    /** One pass of that loop. */
    method RemoveNext(id: string, answers: string -> RemoveAnswers, ghost found: map<string, Watcher>,
                      ghost jobs: set<string>, ghost past: set<Watcher>, ghost gone: set<string>)
      returns (errs: seq<Error>)
      requires Valid() && id in found && id !in gone && Removed(found, jobs, past, gone, answers)
      modifies this`watchers, this`scheduled, this`retired, this`failures, found[id]
      ensures Valid() && closed == old(closed) && Removed(found, jobs, past, gone + {id}, answers)
      ensures AllClean(found, gone + {id}, answers) <==> AllClean(found, gone, answers) && errs == []
      ensures errs == RemovalErrors(found[id].tasks, answers(id))
    {
      errs := RemoveWatcher(id, answers(id));
      OneMore(found, gone, id, answers);
    }

    /** The loop that Clear and Close run over the ids they found: failures do not stop it. */
    method RemoveAll(ids: seq<string>, answers: string -> RemoveAnswers) returns (errs: seq<Error>)
      requires Valid() && Lists(ids, watchers)
      modifies this`watchers, this`scheduled, this`retired, this`failures, watchers.Values
      ensures Valid() && closed == old(closed)
      ensures Removed(old(watchers), old(scheduled), old(retired), old(watchers.Keys), answers)
      ensures errs == [] <==> AllClean(old(watchers), old(watchers.Keys), answers)
      ensures errs == AllErrors(old(watchers), ids, |ids|, answers)
    {
      errs := [];
      ghost var found, jobs, past := watchers, scheduled, retired;
      for i := 0 to |ids|
        modifies this`watchers, this`scheduled, this`retired, this`failures, found.Values
        invariant Valid() && closed == old(closed) && Removed(found, jobs, past, Firsts(ids, i), answers)
        invariant errs == [] <==> AllClean(found, Firsts(ids, i), answers)
        invariant errs == AllErrors(found, ids, i, answers)
      {
        NextOfFirsts(ids, i);
        var removal := RemoveNext(ids[i], answers, found, jobs, past, Firsts(ids, i));
        errs := errs + removal;
      }
      assert Firsts(ids, |ids|) == found.Keys;
    }

    /** Removes every watcher, past any failures: all of them are closed, and the jobs left behind are
        exactly those whose removal failed. */
    method Clear(answers: string -> RemoveAnswers) returns (errs: seq<Error>)
      requires Valid()
      ensures exists ids :: Lists(ids, old(watchers)) && errs == AllErrors(old(watchers), ids, |ids|, answers)
      modifies this`watchers, this`scheduled, this`retired, this`failures, watchers.Values
      ensures Valid() && watchers == map[] && closed == old(closed)
      ensures retired == old(retired) + old(watchers.Values)
      ensures scheduled == old(scheduled) -
        (set id | id in old(watchers) && CleanRemoval(old(watchers)[id].tasks, answers(id)))
      ensures errs == [] <==>
        forall id :: id in old(watchers) ==> CleanRemoval(old(watchers)[id].tasks, answers(id))
    {
      var ids := WatcherIDs();
      errs := RemoveAll(ids, answers);
    }

    /** The registry's part of Close, which runs once: later calls return the first one's errors. */
    method Close(answers: string -> RemoveAnswers) returns (errs: seq<Error>)
      requires Valid()
      modifies this, watchers.Values
      ensures Valid() && closed && errs == closeErrs
      ensures old(closed) ==>
        && closeErrs == old(closeErrs) && watchers == old(watchers)
        && scheduled == old(scheduled) && retired == old(retired)
      ensures !old(closed) ==>
        exists ids :: Lists(ids, old(watchers)) && errs == AllErrors(old(watchers), ids, |ids|, answers)
      ensures !old(closed) ==>
        && watchers == map[] && retired == old(retired) + old(watchers.Values)
        && scheduled == old(scheduled) -
             (set id | id in old(watchers) && CleanRemoval(old(watchers)[id].tasks, answers(id)))
        && (errs == [] <==> forall id :: id in old(watchers) ==> CleanRemoval(old(watchers)[id].tasks, answers(id)))
    {
      if !closed {
        var found := Clear(answers);
        closed, closeErrs := true, found;
      }
      errs := closeErrs;
    }
  }
}
