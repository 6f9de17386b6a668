/**
 The assignments of a window, run when it matches them: the commands they run may start the same function
 again for any window.
 */
module Assignments {

  class Assignment {
    const isCommand: bool   // type == A_COMMAND
  }

  class Window {
    var ran: seq<Assignment> // ran_assignments, nr_assignments of them
  }

  /** What happens, in order: assignments are tested for windows and their commands are executed. */
  datatype Event = Tested(window: Window, assignment: Assignment, matched: bool)
                 | Executed(window: Window, assignment: Assignment)

  class Log {
    var trace: seq<Event>
  }

  // ---- what is kept ------------------------------------------------------------------------------

  predicate Ran(trace: seq<Event>, w: Window, a: Assignment) {
    Executed(w, a) in trace
  }

  /** No command is executed twice for the same window, and each only right after its assignment matched. */
  ghost predicate Orderly(trace: seq<Event>, all: seq<Assignment>) {
    && (forall i, j :: 0 <= i < j < |trace| && trace[i].Executed? ==> trace[i] != trace[j])
    && (forall i :: 0 <= i < |trace| && trace[i].Executed? ==>
          i > 0 && trace[i - 1] == Tested(trace[i].window, trace[i].assignment, true) &&
              trace[i].assignment.isCommand && trace[i].assignment in all)
  }

  /** The windows have recorded exactly what was executed for them. */
  ghost predicate Recorded(trace: seq<Event>, windows: set<Window>)
    reads windows
  {
    && (forall w, a :: w in windows && a in w.ran ==> Ran(trace, w, a))
    && (forall e :: e in trace && e.Executed? && e.window in windows ==> e.assignment in e.window.ran)
  }

  ghost predicate Kept(log: Log, windows: set<Window>, all: seq<Assignment>)
    reads log, windows
  {
    Orderly(log.trace, all) && Recorded(log.trace, windows)
  }

  /** Between two steps of run_assignments every match found so far has been answered by an execution. */
  ghost predicate Answered(trace: seq<Event>) {
    forall e :: e in trace && e.Tested? && e.matched ==> Ran(trace, e.window, e.assignment)
  }

  ghost predicate Between(log: Log, windows: set<Window>, all: seq<Assignment>)
    reads log, windows
  {
    Kept(log, windows, all) && Answered(log.trace)
  }

  type Records = map<Window, seq<Assignment>>

  ghost function RecordsOf(windows: set<Window>): (r: Records)
    reads windows
    ensures r.Keys == windows && forall w :: w in windows ==> r[w] == w.ran
  {
    map w | w in windows :: w.ran
  }

  /** The pairs not recorded yet. */
  ghost function Missing(r: Records, all: seq<Assignment>): set<(Window, Assignment)> {
    set w, a | w in r && a in all && a !in r[w] :: (w, a)
  }

  /** What any number of nested calls leave: records and trace only grow. */
  ghost predicate Grown(r: Records, t: seq<Event>, r': Records, t': seq<Event>) {
    t <= t' && r.Keys == r'.Keys && forall w :: w in r ==> r[w] <= r'[w]
  }

  lemma GrownMissing(r: Records, t: seq<Event>, r': Records, t': seq<Event>, all: seq<Assignment>)
    requires Grown(r, t, r', t')
    ensures Missing(r', all) <= Missing(r, all)
  {
    forall w, a | w in r && a in r[w] ensures a in r'[w] {
      var i :| 0 <= i < |r[w]| && r[w][i] == a;
      assert r'[w][i] == a;
    }
  }

  lemma GrownTrans(r: Records, t: seq<Event>, r': Records, t': seq<Event>, r'': Records, t'': seq<Event>)
    requires Grown(r, t, r', t') && Grown(r', t', r'', t'')
    ensures Grown(r, t, r'', t'')
  {
  }

  lemma TestKeeps(trace: seq<Event>, all: seq<Assignment>, w: Window, a: Assignment, matched: bool)
    requires Orderly(trace, all)
    ensures Orderly(trace + [Tested(w, a, matched)], all)
  {
  }

  lemma ExecuteKeeps(trace: seq<Event>, all: seq<Assignment>, w: Window, a: Assignment)
    requires Orderly(trace, all) && a.isCommand && a in all && !Ran(trace, w, a)
    requires |trace| > 0 && trace[|trace| - 1] == Tested(w, a, true)
    ensures Orderly(trace + [Executed(w, a)], all)
  {
  }

  // ---- the code ----------------------------------------------------------------------------------

  /** match_matches_window: the answer may differ from one test to the next. */
  method MatchMatchesWindow(log: Log, w: Window, a: Assignment, ghost windows: set<Window>,
                            ghost all: seq<Assignment>) returns (matched: bool)
    requires Kept(log, windows, all)
    modifies log
    ensures Kept(log, windows, all) && log.trace == old(log.trace) + [Tested(w, a, matched)]
  {
    matched := *;
    TestKeeps(log.trace, all, w, a, matched);
    log.trace := log.trace + [Tested(w, a, matched)];
  }

  method AlreadyRan(w: Window, a: Assignment) returns (skip: bool)
    ensures skip <==> a in w.ran
  {
    for c := 0 to |w.ran|
      invariant a !in w.ran[..c]
    {
      if w.ran[c] == a {
        return true;
      }
    }
    skip := false;
  }

  /** The assignment is recorded for the window, and its command is still to be executed. */
  ghost predicate Pending(log: Log, w: Window, a: Assignment, windows: set<Window>, all: seq<Assignment>)
    reads log, windows
  {
    var t := log.trace + [Executed(w, a)];
    Orderly(t, all) && Recorded(t, windows) && Answered(t)
  }

  /** The assignment is recorded before its command runs. */
  method Record(log: Log, w: Window, a: Assignment, ghost windows: set<Window>, ghost all: seq<Assignment>)
    requires Kept(log, windows, all) && w in windows && a in all && a.isCommand && a !in w.ran
    requires log.trace != [] && log.trace[|log.trace| - 1] == Tested(w, a, true)
    requires Answered(log.trace[..|log.trace| - 1])
    modifies w
    ensures Pending(log, w, a, windows, all)
    ensures w.ran == old(w.ran) + [a] && (forall v :: v in windows && v != w ==> v.ran == old(v.ran))
    ensures Missing(RecordsOf(windows), all) < old(Missing(RecordsOf(windows), all))
  {
    assert !Ran(log.trace, w, a);
    ExecuteKeeps(log.trace, all, w, a);
    AnsweredNow(log.trace, w, a);
    ghost var missing := Missing(RecordsOf(windows), all);
    assert (w, a) in missing;
    w.ran := w.ran + [a];
    assert (w, a) !in Missing(RecordsOf(windows), all);
  }

  lemma AnsweredNow(trace: seq<Event>, w: Window, a: Assignment)
    requires trace != [] && trace[|trace| - 1] == Tested(w, a, true) && Answered(trace[..|trace| - 1])
    ensures Answered(trace + [Executed(w, a)])
  {
    var before, t := trace[..|trace| - 1], trace + [Executed(w, a)];
    assert t == before + [Tested(w, a, true), Executed(w, a)];
    forall e | e in t && e.Tested? && e.matched ensures Ran(t, e.window, e.assignment) {
      if e in before { assert Ran(before, e.window, e.assignment); }
    }
  }

  /** parse_command on the command of an assignment: it may call run_assignments for any windows. */
  method ParseCommand(log: Log, w: Window, a: Assignment, windows: set<Window>, all: seq<Assignment>)
    requires Pending(log, w, a, windows, all)
    modifies log, windows
    ensures Between(log, windows, all)
    ensures Grown(old(RecordsOf(windows)), old(log.trace) + [Executed(w, a)], RecordsOf(windows), log.trace)
    decreases Missing(RecordsOf(windows), all), 2
  {
    log.trace := log.trace + [Executed(w, a)];
    var wish: int := *;
    var calls := if wish < 0 then 0 else wish;
    for n := 0 to calls
      invariant Between(log, windows, all)
      invariant Grown(old(RecordsOf(windows)), old(log.trace) + [Executed(w, a)], RecordsOf(windows), log.trace)
    {
      if windows != {} {
        var v :| v in windows;
        ghost var r, t := RecordsOf(windows), log.trace;
        GrownMissing(old(RecordsOf(windows)), old(log.trace) + [Executed(w, a)], r, t, all);
        ghost var matched := RunAssignments(log, v, windows, all);
        GrownTrans(old(RecordsOf(windows)), old(log.trace) + [Executed(w, a)], r, t, RecordsOf(windows), log.trace);
      }
    }
  }

  /** One assignment is tested and, unless it is recorded already, recorded on its match. */
  method TestAndRecord(log: Log, window: Window, current: Assignment, ghost windows: set<Window>,
                       ghost all: seq<Assignment>)
    returns (m: bool, run: bool)
    requires window in windows && current in all && current.isCommand && Between(log, windows, all)
    modifies log, window
    ensures log.trace == old(log.trace) + [Tested(window, current, m)]
    ensures Grown(old(RecordsOf(windows)), old(log.trace), RecordsOf(windows), log.trace)
    ensures if run then m && Pending(log, window, current, windows, all) &&
                        Missing(RecordsOf(windows), all) < old(Missing(RecordsOf(windows), all))
            else Between(log, windows, all) && (m ==> Ran(log.trace, window, current))
  {
    ghost var before := log.trace;
    m := MatchMatchesWindow(log, window, current, windows, all);
    assert log.trace[..|before|] == before;
    run := false;
    if m {
      var skip := AlreadyRan(window, current);
      if !skip {
        Record(log, window, current, windows, all);
        run := true;
      }
    }
  }

  method Consider(log: Log, window: Window, current: Assignment, windows: set<Window>,
                  all: seq<Assignment>) returns (ghost matched: bool)
    requires window in windows && current in all && current.isCommand && Between(log, windows, all)
    modifies log, windows
    ensures Between(log, windows, all) && Grown(old(RecordsOf(windows)), old(log.trace), RecordsOf(windows), log.trace)
    ensures |log.trace| > |old(log.trace)| && log.trace[|old(log.trace)|] == Tested(window, current, matched)
    ensures matched ==> Ran(log.trace, window, current)
    decreases Missing(RecordsOf(windows), all), 0
  {
    var m, run := TestAndRecord(log, window, current, windows, all);
    matched := m;
    if run {
      ghost var r, t := RecordsOf(windows), log.trace + [Executed(window, current)];
      ParseCommand(log, window, current, windows, all);
      assert t[|t| - 1] == log.trace[|t| - 1] == Executed(window, current);
      GrownTrans(old(RecordsOf(windows)), old(log.trace), r, t, RecordsOf(windows), log.trace);
    }
  }

  /** Since position `from` of the trace the first |matched| assignments have been tested for the window with
      these answers, and those that matched have run. */
  ghost predicate Through(from: nat, trace: seq<Event>, window: Window, all: seq<Assignment>, matched: seq<bool>) {
    |matched| <= |all| && from <= |trace| &&
    forall k :: 0 <= k < |matched| && all[k].isCommand ==>
      Tested(window, all[k], matched[k]) in trace[from..] && (matched[k] ==> Ran(trace, window, all[k]))
  }

  lemma ThroughMore(from: nat, t: seq<Event>, t': seq<Event>, window: Window, all: seq<Assignment>,
                    matched: seq<bool>, m: bool)
    requires Through(from, t, window, all, matched) && t <= t' && |matched| < |all|
    requires all[|matched|].isCommand ==>
               |t| < |t'| && t'[|t|] == Tested(window, all[|matched|], m) && (m ==> Ran(t', window, all[|matched|]))
    ensures Through(from, t', window, all, matched + [m])
  {
    assert forall e :: e in t ==> e in t';
    assert t[from..] <= t'[from..];
    assert forall e :: e in t[from..] ==> e in t'[from..];
    if |t| < |t'| { assert t'[from..][|t| - from] == t'[|t|]; }
    var n := matched + [m];
    assert forall k :: 0 <= k < |matched| ==> n[k] == matched[k];
  }

  /** run_assignments: each command at most once for a window, and every assignment that matched in this call has
      run on return. */
  method RunAssignments(log: Log, window: Window, windows: set<Window>, all: seq<Assignment>)
    returns (ghost matched: seq<bool>)
    requires window in windows && Between(log, windows, all)
    modifies log, windows
    ensures Between(log, windows, all) && Grown(old(RecordsOf(windows)), old(log.trace), RecordsOf(windows), log.trace)
    ensures |matched| == |all| && Through(|old(log.trace)|, log.trace, window, all, matched)
    decreases Missing(RecordsOf(windows), all), 1
  {
    matched := [];
    for k := 0 to |all|
      invariant Between(log, windows, all) &&
                Grown(old(RecordsOf(windows)), old(log.trace), RecordsOf(windows), log.trace)
      invariant |matched| == k && Through(|old(log.trace)|, log.trace, window, all, matched)
    {
      ghost var r, before := RecordsOf(windows), log.trace;
      GrownMissing(old(RecordsOf(windows)), old(log.trace), r, before, all);
      ghost var m := false;
      if all[k].isCommand {
        m := Consider(log, window, all[k], windows, all);
      }
      GrownTrans(old(RecordsOf(windows)), old(log.trace), r, before, RecordsOf(windows), log.trace);
      ThroughMore(|old(log.trace)|, before, log.trace, window, all, matched, m);
      matched := matched + [m];
    }
  }
}
