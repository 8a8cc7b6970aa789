/**
 * The repository's abstract task-placement machine, for any number of harts and tasks: dispatch of the queue's
 * head, release, block and end of a current task, and wake. `Create` stands for the spawns that the repository's
 * model, with its fixed set of tasks, leaves out.
 */
module SchedulerModel {
  import opened Base

  datatype Letter = Ready | Running | Blocked | Ended

  datatype State = State(letters: seq<Letter>, current: seq<int>, runQueue: seq<int>, waiting: set<int>)

  datatype Move =
    | Dispatch(hart: int)
    | Release(hart: int)
    | Block(hart: int)
    | End(hart: int)
    | Wake(task: int)
    | Create(task: int)

  predicate IsTask(s: State, t: int) { 0 <= t < |s.letters| }

  predicate Busy(s: State, h: int) { 0 <= h < |s.current| && s.current[h] != NIL && IsTask(s, s.current[h]) }

  predicate Enabled(s: State, m: Move) {
    match m
    case Dispatch(h) => s.runQueue != [] && IsTask(s, s.runQueue[0]) && 0 <= h < |s.current| && s.current[h] == NIL
    case Release(h) => Busy(s, h)
    case Block(h) => Busy(s, h)
    case End(h) => Busy(s, h)
    case Wake(t) => IsTask(s, t) && t in s.waiting
    case Create(t) => IsTask(s, t) && s.letters[t] == Ended
  }

  function After(s: State, m: Move): State
    requires Enabled(s, m)
  {
    match m
    case Dispatch(h) =>
      s.(letters := s.letters[s.runQueue[0] := Running], current := s.current[h := s.runQueue[0]],
         runQueue := s.runQueue[1..])
    case Release(h) =>
      s.(letters := s.letters[s.current[h] := Ready], current := s.current[h := NIL],
         runQueue := s.runQueue + [s.current[h]])
    case Block(h) =>
      s.(letters := s.letters[s.current[h] := Blocked], current := s.current[h := NIL],
         waiting := s.waiting + {s.current[h]})
    case End(h) => s.(letters := s.letters[s.current[h] := Ended], current := s.current[h := NIL])
    case Wake(t) => s.(letters := s.letters[t := Ready], runQueue := s.runQueue + [t], waiting := s.waiting - {t})
    case Create(t) => s.(letters := s.letters[t := Ready], runQueue := s.runQueue + [t])
  }

  /** `check_state`: a task that has not ended is in exactly the one place its letter names, once. */
  ghost predicate Checked(s: State) {
    && Distinct(s.runQueue)
    && (forall g, h :: 0 <= g < h < |s.current| && s.current[g] != NIL ==> s.current[g] != s.current[h])
    && (forall t :: t in s.runQueue ==> IsTask(s, t) && s.letters[t] == Ready)
    && (forall h :: 0 <= h < |s.current| && s.current[h] != NIL ==>
          IsTask(s, s.current[h]) && s.letters[s.current[h]] == Running)
    && (forall t :: t in s.waiting ==> IsTask(s, t) && s.letters[t] == Blocked)
    && (forall t {:trigger s.letters[t]} :: IsTask(s, t) ==>
          && (s.letters[t] == Ready ==> t in s.runQueue)
          && (s.letters[t] == Running ==> t in s.current)
          && (s.letters[t] == Blocked ==> t in s.waiting))
  }

  /** Every move keeps the placement check, for any number of harts and tasks. */
  lemma MoveKeepsChecked(s: State, m: Move)
    requires Checked(s) && Enabled(s, m)
    ensures Checked(After(s, m))
  {
    match m {
      case Dispatch(h) => DispatchKeepsChecked(s, h);
      case Release(h) => LeaveKeepsChecked(s, m, h);
      case Block(h) => LeaveKeepsChecked(s, m, h);
      case End(h) => LeaveKeepsChecked(s, m, h);
      case Wake(t) => JoinKeepsChecked(s, m, t);
      case Create(t) => JoinKeepsChecked(s, m, t);
    }
  }

  lemma TailIsElsewhere(q: seq<int>)
    requires Distinct(q) && q != []
    ensures Distinct(q[1..]) && q[0] !in q[1..] && forall x :: x in q[1..] ==> x in q
  {
    assert q == [q[0]] + q[1..];
  }

  lemma DispatchKeepsChecked(s: State, h: int)
    requires Checked(s) && Enabled(s, Dispatch(h))
    ensures Checked(After(s, Dispatch(h)))
  {
    var u, t := After(s, Dispatch(h)), s.runQueue[0];
    assert s.runQueue == [t] + s.runQueue[1..];
    TailIsElsewhere(s.runQueue);
    forall x | IsTask(u, x) && u.letters[x] == Running ensures x in u.current {
      if x == t {
        assert u.current[h] == t;
      } else {
        var g :| 0 <= g < |s.current| && s.current[g] == x;
        assert u.current[g] == x;
      }
    }
  }

  lemma LeaveKeepsChecked(s: State, m: Move, h: int)
    requires Checked(s) && Enabled(s, m) && m in {Release(h), Block(h), End(h)}
    ensures Checked(After(s, m))
  {
    var u, t := After(s, m), s.current[h];
    forall x | IsTask(u, x) && u.letters[x] == Running ensures x in u.current {
      var g :| 0 <= g < |s.current| && s.current[g] == x;
      assert u.current[g] == x;
    }
  }

  lemma JoinKeepsChecked(s: State, m: Move, t: int)
    requires Checked(s) && Enabled(s, m) && m in {Wake(t), Create(t)}
    ensures Checked(After(s, m))
  {
  }

  // ---------------------------------------------------------------------------------------------
  // Paths

  ghost predicate Leads(s: State, moves: seq<Move>, t: State)
    decreases |moves|
  {
    if moves == [] then s == t else Enabled(s, moves[0]) && Leads(After(s, moves[0]), moves[1..], t)
  }

  lemma {:induction false} LeadsOn(s: State, a: seq<Move>, m: State, b: seq<Move>, t: State)
    requires Leads(s, a, m) && Leads(m, b, t)
    ensures Leads(s, a + b, t)
    decreases |a|
  {
    if a == [] {
      assert a + b == b;
    } else {
      LeadsOn(After(s, a[0]), a[1..], m, b, t);
      assert (a + b)[1..] == a[1..] + b;
    }
  }

  lemma LeadsOne(s: State, m: Move)
    requires Enabled(s, m)
    ensures Leads(s, [m], After(s, m))
  {
    assert [m][1..] == [];
  }

  lemma {:induction false} PathKeepsChecked(s: State, moves: seq<Move>, t: State)
    requires Checked(s) && Leads(s, moves, t)
    ensures Checked(t)
    decreases |moves|
  {
    if moves != [] {
      MoveKeepsChecked(s, moves[0]);
      PathKeepsChecked(After(s, moves[0]), moves[1..], t);
    }
  }

  /** Moves that neither dispatch nor reorder: the queue only grows at its tail. */
  ghost predicate Quiet(moves: seq<Move>) { forall i :: 0 <= i < |moves| ==> !moves[i].Dispatch? }

  ghost predicate Wakes(moves: seq<Move>) { forall i :: 0 <= i < |moves| ==> moves[i].Wake? }

  lemma {:induction false} QuietExtends(s: State, moves: seq<Move>, t: State)
    requires Leads(s, moves, t) && Quiet(moves)
    ensures s.runQueue <= t.runQueue
    ensures Wakes(moves) ==> t.current == s.current
    decreases |moves|
  {
    if moves != [] {
      QuietExtends(After(s, moves[0]), moves[1..], t);
    }
  }
}
