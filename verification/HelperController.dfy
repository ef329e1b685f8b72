/**
 The code of the helper protocol as it runs in one call, with the other calls and the environment acting
 between its API requests. Every method is a path of the step system: its requests are recorded in a trace,
 and the trace leads from the start to the present state.
 */
module HelperController {
  import opened Wrappers
  import opened HelperPods
  import opened HelperSystem
  import opened HelperLimit
  import opened HelperOwnership

  /** What happens at one API request: steps of others before it, and how it is answered. */
  datatype Turn = Turn(others: seq<Label>, fails: bool, fate: CreateFate, del: DeleteFate, expired: bool)

  datatype CreateReply = Created | NameTaken | NotCreated

  /** Nothing happens between this call's requests, and every request is answered. */
  predicate Calm(turns: seq<Turn>) {
    forall i | 0 <= i < |turns| ::
      turns[i].others == [] && !turns[i].fails && turns[i].fate.CreateReplied? && turns[i].del.DeleteReplied?
  }

  /** What admission answers when the list is not stale. */
  ghost function Admission(max: int, pods: Store, desired: Pod): Option<Code> {
    if max <= 0 || Groups(desired) == {} then Some(Internal)
    else if !Room(max, pods, desired) then Some(Aborted)
    else None
  }

  predicate Joinable(pods: Store, desired: Pod) {
    && desired.name in pods
    && !pods[desired.name].deleting
    && Derives(desired.spec, pods[desired.name].spec)
  }

  /** What ensureHelper answers when nothing interferes: join, clear a stale pod, refuse, or create. */
  ghost function Answer(max: int, pods: Store, desired: Pod): Option<Code> {
    if desired.name in pods then
      if Joinable(pods, desired) then None else Some(Unavailable)
    else Admission(max, pods, desired)
  }

  /** A pod was asked to go: it is gone, or it terminates. */
  ghost predicate Dismissed(before: Store, after: Store, name: string) {
    || after == before - {name}
    || (name in before && after == before[name := before[name].(deleting := true)])
  }

  /** What becomes of the pods when a pod is found under the name and nothing interferes. */
  ghost predicate Handled(before: Store, after: Store, desired: Pod, existing: Pod) {
    if existing.deleting then after == before - {desired.name}
    else if !Derives(desired.spec, existing.spec) && existing.phase in {Succeeded, Failed} then
      Dismissed(before, after, desired.name)
    else after == before
  }

  lemma GroupsListed(groups: seq<string>, desired: Pod)
    requires forall v :: v in groups <==> v in Groups(desired)
    ensures |groups| == 0 <==> Groups(desired) == {}
  {
    assert |groups| > 0 ==> groups[0] in groups;
  }

  lemma GroupsUnderLimit(groups: seq<string>, desired: Pod, items: seq<Pod>, max: int)
    requires forall v :: v in groups <==> v in Groups(desired)
    ensures UnderLimit(desired, items, max) <==>
              forall i | 0 <= i < |groups| :: |Counted(items, desired, groups[i])| < max
  {
    if UnderLimit(desired, items, max) {
      forall i | 0 <= i < |groups| ensures |Counted(items, desired, groups[i])| < max {
        assert groups[i] in groups;
      }
    }
  }

  /** admitHelper's loop over the groups of the new pod: stops at the first full one. */
  method CheckGroups(groups: seq<string>, desired: Pod, items: seq<Pod>, max: int) returns (under: bool)
    ensures under <==> forall i | 0 <= i < |groups| :: |Counted(items, desired, groups[i])| < max
  {
    for i := 0 to |groups|
      invariant forall j | 0 <= j < i :: |Counted(items, desired, groups[j])| < max
    {
      var active := CountActiveHelpers(items, desired, groups[i]);
      if active >= max {
        return false;
      }
    }
    return true;
  }

  lemma CountOutcome(max: int, s: State, c: CallId, desired: Pod, items: seq<Pod>, empty: bool, under: bool)
    requires c in s.calls && s.calls[c] == Call(desired, Listed(items))
    requires empty == (Groups(desired) == {}) && under == UnderLimit(desired, items, max)
    ensures Step(max, s, Count(c))
         == Some(if empty then Fail(s, c, Internal) else if !under then Fail(s, c, Aborted) else Goto(s, c, Admitted))
  {
  }

  class Cluster {
    const max: int
    var s: State
    var turns: seq<Turn>
    ghost const start: State
    ghost var trace: seq<Label>

    ghost predicate Valid()
      reads this
    {
      WellNamed(s.pods) && Run(max, start, trace) == Some(s)
    }

    /** Call c stands at pc with the pod it asks for. */
    ghost predicate Stands(c: CallId, desired: Pod, pc: PC)
      reads this
    {
      Valid() && c in s.calls && s.calls[c] == Call(desired, pc)
    }

    constructor (max: int, s: State, turns: seq<Turn>)
      requires WellNamed(s.pods)
      ensures Valid() && this.max == max && this.s == s && this.turns == turns && start == s && trace == []
    {
      this.max, this.s, this.turns, this.start, this.trace := max, s, turns, s, [];
    }

    /** One atomic step. */
    method Advance(l: Label)
      requires Valid() && Step(max, s, l).Some?
      modifies this`s, this`trace
      ensures Valid() && Some(s) == Step(max, old(s), l) && trace == old(trace) + [l]
    {
      RunExtends(max, start, trace, l);
      WellNamedStep(max, s, l);
      s, trace := Step(max, s, l).value, trace + [l];
    }

    /** The next turn: others act first. When the script runs out, requests are answered but time is up. */
    method Yield(c: CallId) returns (turn: Turn)
      requires Valid() && c in s.calls
      modifies this
      ensures Valid() && c in s.calls && s.calls[c] == old(s.calls[c])
      ensures turns == Later(old(turns), 1)
      ensures if old(turns) == [] then turn.expired else turn.expired == old(turns)[0].expired
      ensures Calm(old(turns)) ==> Calm(turns) && s == old(s)
      ensures Calm(old(turns)) ==> !turn.fails && turn.fate.CreateReplied? && turn.del.DeleteReplied?
    {
      if turns == [] {
        return Turn([], false, CreateReplied, DeleteReplied(true), true);
      }
      turn, turns := turns[0], turns[1..];
      for i := 0 to |turn.others|
        invariant Valid() && c in s.calls && s.calls[c] == old(s.calls[c])
        invariant turns == old(turns)[1..]
        invariant Calm(old(turns)) ==> s == old(s)
      {
        var l := turn.others[i];
        if Owner(l) != Some(c) && !l.Restart? && Step(max, s, l).Some? {
          OthersKeepCall(max, s, l, c);
          Advance(l);
        }
      }
    }

    /** The pods of the store in some order. */
    method ListPods() returns (items: seq<Pod>)
      requires Valid()
      ensures Lists(items, s.pods)
    {
      items := [];
      var rest := s.pods.Keys;
      while rest != {}
        invariant rest <= s.pods.Keys
        invariant forall i | 0 <= i < |items| :: items[i].name in s.pods && s.pods[items[i].name] == items[i]
        invariant forall i | 0 <= i < |items| :: items[i].name !in rest
        invariant forall n | n in s.pods && n !in rest :: exists i | 0 <= i < |items| :: items[i].name == n
        invariant forall i, j | 0 <= i < j < |items| :: items[i].name != items[j].name
      {
        var name :| name in rest;
        ghost var before := items;
        items, rest := items + [s.pods[name]], rest - {name};
        forall n | n in s.pods && n !in rest ensures exists i | 0 <= i < |items| :: items[i].name == n {
          if n == name {
            assert items[|before|].name == n;
          } else {
            var i :| 0 <= i < |before| && before[i].name == n;
            assert items[i].name == n;
          }
        }
      }
    }

    method AdmitHelper(c: CallId, desired: Pod) returns (err: Option<Code>)
      requires Stands(c, desired, Missing)
      modifies this
      ensures Stands(c, desired, match err case None => Admitted case Some(code) => Done(Failure(code)))
      ensures Calm(old(turns)) ==> Calm(turns) && s.pods == old(s.pods) && err == Admission(max, old(s.pods), desired)
    {
      if max <= 0 {
        Advance(List(c, false, []));
        return Some(Internal);
      }
      var turn := Yield(c);
      var items := ListPods();
      Advance(List(c, turn.fails, items));
      if turn.fails {
        return Some(Unavailable);
      }
      // Other calls and the environment go on while this one counts.
      turn := Yield(c);
      if Calm(old(turns)) { FreshListExact(max, items, s.pods, desired); }
      err := AdmitListed(c, desired, items);
    }

    method AdmitListed(c: CallId, desired: Pod, items: seq<Pod>) returns (err: Option<Code>)
      requires Stands(c, desired, Listed(items))
      modifies this`s, this`trace
      ensures Stands(c, desired, match err case None => Admitted case Some(code) => Done(Failure(code)))
      ensures s.pods == old(s.pods)
      ensures err == if Groups(desired) == {} then Some(Internal)
                     else if !UnderLimit(desired, items, max) then Some(Aborted) else None
    {
      var groups := HelperVGs(desired);
      var empty := |groups| == 0;
      var under := CheckGroups(groups, desired, items, max);
      GroupsListed(groups, desired);
      GroupsUnderLimit(groups, desired, items, max);
      CountOutcome(max, s, c, desired, items, empty, under);
      Advance(Count(c));
      err := if empty then Some(Internal) else if !under then Some(Aborted) else None;
    }

    method ForceDeleteHelper(c: CallId, desired: Pod) returns (err: Code)
      requires Stands(c, desired, Forcing)
      modifies this
      ensures Stands(c, desired, Done(Failure(err))) && err == Unavailable
      ensures Calm(old(turns)) ==> s.pods == old(s.pods) - {desired.name}
    {
      var turn := Yield(c);
      var del := match turn.del
                 case DeleteReplied(_) => DeleteReplied(true)
                 case DeleteReplyLost(_) => DeleteReplyLost(true)
                 case DeleteFailed => DeleteFailed;
      Advance(ForceDelete(c, del));
      return Unavailable;
    }

    method RetireHelper(c: CallId, desired: Pod, existing: Pod) returns (err: Code)
      requires Stands(c, desired, if Terminal(existing) then Retiring else Done(Failure(Unavailable)))
      modifies this
      ensures Stands(c, desired, Done(Failure(err))) && err == Unavailable
      ensures Calm(old(turns)) ==>
                if existing.phase in {Succeeded, Failed} then Dismissed(old(s.pods), s.pods, desired.name)
                else s.pods == old(s.pods)
    {
      if !Terminal(existing) {
        return Unavailable;
      }
      var turn := Yield(c);
      Advance(Retire(c, turn.del));
      return Unavailable;
    }

    method UseExistingHelper(c: CallId, desired: Pod, existing: Pod) returns (err: Option<Code>)
      requires Stands(c, desired, UseExisting(desired, existing))
      modifies this
      ensures Stands(c, desired, match err case None => Waiting case Some(code) => Done(Failure(code)))
      ensures err == if !existing.deleting && Derives(desired.spec, existing.spec) then None else Some(Unavailable)
      ensures err == None ==> s.pods == old(s.pods) && turns == old(turns)
      ensures Calm(old(turns)) ==> Handled(old(s.pods), s.pods, desired, existing)
    {
      if existing.deleting {
        var code := ForceDeleteHelper(c, desired);
        return Some(code);
      }
      if Derives(desired.spec, existing.spec) {
        return None;
      }
      var code := RetireHelper(c, desired, existing);
      return Some(code);
    }

    method ReuseHelper(c: CallId, desired: Pod) returns (err: Option<Code>)
      requires Stands(c, desired, Collided)
      modifies this
      ensures Stands(c, desired, match err case None => Waiting case Some(code) => Done(Failure(code)))
      ensures Calm(old(turns)) ==> err == if Joinable(old(s.pods), desired) then None else Some(Unavailable)
      ensures Calm(old(turns)) && desired.name in old(s.pods) ==>
                Handled(old(s.pods), s.pods, desired, old(s.pods)[desired.name])
    {
      var turn := Yield(c);
      var present := desired.name in s.pods;
      var existing := if present then s.pods[desired.name] else desired;
      Advance(Reget(c, turn.fails));
      if turn.fails || !present {
        return Some(Unavailable);
      }
      err := UseExistingHelper(c, desired, existing);
    }

    method EnsureHelper(c: CallId, desired: Pod) returns (err: Option<Code>)
      requires Stands(c, desired, Locked)
      modifies this
      ensures Stands(c, desired, match err case None => Waiting case Some(code) => Done(Failure(code)))
      ensures Calm(old(turns)) ==> err == Answer(max, old(s.pods), desired)
      ensures Calm(old(turns)) && err == None ==>
                s.pods == if desired.name in old(s.pods) then old(s.pods)
                          else old(s.pods)[desired.name := Stored(desired)]
      ensures Calm(old(turns)) && desired.name in old(s.pods) ==>
                Handled(old(s.pods), s.pods, desired, old(s.pods)[desired.name])
      ensures Calm(old(turns)) && Joinable(old(s.pods), desired) ==> turns == Later(old(turns), 1)
    {
      var turn := Yield(c);
      var present := desired.name in s.pods;
      var existing := if present then s.pods[desired.name] else desired;
      Advance(Get(c, turn.fails));
      if turn.fails {
        return Some(Unavailable);
      }
      if present {
        err := UseExistingHelper(c, desired, existing);
        return;
      }
      err := AdmitHelper(c, desired);
      if err.Some? {
        return;
      }
      err := CreateHelper(c, desired);
    }

    method CreateHelper(c: CallId, desired: Pod) returns (err: Option<Code>)
      requires Stands(c, desired, Admitted)
      modifies this
      ensures Stands(c, desired, match err case None => Waiting case Some(code) => Done(Failure(code)))
      ensures Calm(old(turns)) && desired.name !in old(s.pods) ==>
                err == None && s.pods == old(s.pods)[desired.name := Stored(desired)]
    {
      var reply := PostHelper(c, desired);
      match reply
      case NotCreated => err := Some(Other);
      case Created => err := None;
      case NameTaken => err := ReuseHelper(c, desired);
    }

    /** The create request. */
    method PostHelper(c: CallId, desired: Pod) returns (reply: CreateReply)
      requires Stands(c, desired, Admitted)
      modifies this
      ensures Stands(c, desired, match reply
                                 case Created => Waiting
                                 case NameTaken => Collided
                                 case NotCreated => Done(Failure(Other)))
      ensures Calm(old(turns)) && desired.name !in old(s.pods) ==>
                reply == Created && s.pods == old(s.pods)[desired.name := Stored(desired)]
    {
      var turn := Yield(c);
      var collides := desired.name in s.pods;
      Advance(Create(c, turn.fate));
      return if !turn.fate.CreateReplied? then NotCreated else if collides then NameTaken else Created;
    }

    /** Polls until the pod is terminal, gone, or time is up. */
    method WaitForHelper(c: CallId, desired: Pod) returns (terminal: bool, err: Option<Code>)
      requires Stands(c, desired, Waiting)
      modifies this
      ensures Valid() && c in s.calls && s.calls[c].desired == desired
      ensures if terminal
              then s.calls[c].pc.Seen? && match s.calls[c].pc.pod.phase
                                          case Succeeded => err == None
                                          case Failed => err == Some(Internal)
                                          case _ => false
              else err.Some? && err.value in {Unavailable, Canceled} && s.calls[c].pc == Done(Failure(err.value))
      // undisturbed and with time left: a pod that succeeded or failed is seen at the first poll, and one that is gone
      // is reported; a pod that is neither is polled until time is up
      ensures Calm(old(turns)) && old(turns) != [] && !old(turns)[0].expired ==>
                if desired.name !in old(s.pods) then !terminal && err == Some(Unavailable)
                else match old(s.pods)[desired.name].phase
                     case Succeeded => terminal && err == None && s.calls[c].pc == Seen(old(s.pods)[desired.name])
                     case Failed => terminal && err == Some(Internal) && s.calls[c].pc == Seen(old(s.pods)[desired.name])
                     case _ => !terminal && err == Some(Canceled)
    {
      while true
        invariant Stands(c, desired, Waiting)
        invariant Calm(old(turns)) ==> Calm(turns) && s.pods == old(s.pods)
        invariant Calm(old(turns)) && turns != old(turns) && old(turns) != [] && !old(turns)[0].expired ==>
                    desired.name in old(s.pods) && !Terminal(old(s.pods)[desired.name])
        decreases |turns|
      {
        var turn := Yield(c);
        if turn.expired {
          Advance(Cancel(c));
          return false, Some(Canceled);
        }
        var present := desired.name in s.pods;
        var pod := if present then s.pods[desired.name] else desired;
        Advance(Poll(c, turn.fails));
        if !turn.fails {
          if !present {
            return false, Some(Unavailable);
          }
          if Terminal(pod) {
            return true, if pod.phase == Failed then Some(Internal) else None;
          }
        }
      }
    }

    /** None: the script ended before the lock was free. */
    method Acquires(c: CallId, desired: Pod) returns (locked: bool)
      requires Stands(c, desired, Start)
      modifies this
      ensures Stands(c, desired, if locked then Locked else Start)
      ensures old(s.lock) == None ==> locked && turns == old(turns) && s.pods == old(s.pods)
    {
      while s.lock != None
        invariant Stands(c, desired, Start)
        invariant old(s.lock) == None ==> turns == old(turns) && s == old(s)
        decreases |turns|
      {
        if turns == [] {
          return false;
        }
        var turn := Yield(c);
      }
      Advance(Acquire(c));
      return true;
    }

    /**
     One call, from its begin to its return. Whatever the others did meanwhile, the limit holds if it held at the
     start; and if no other call used the name, success means a matching pod was seen to succeed.
     */
    method RunHelper(c: CallId, desired: Pod) returns (ret: Option<Return>)
      requires Valid() && c !in s.calls
      modifies this
      ensures Stands(c, desired, match ret case None => Start case Some(r) => Done(r))
      ensures Initial(max, start) ==> WithinLimit(max, s.pods)
      ensures Fresh(start) && ExclusiveRun(max, start, trace) && ret.Some? && ret.value.Success? ==>
                && ret.value.seen.phase == Succeeded && ret.value.seen.name == desired.name
                && Derives(desired.spec, ret.value.seen.spec)
      // undisturbed, a matching pod that an earlier call left behind is joined, and its end is this call's
      ensures Calm(old(turns)) && |old(turns)| > 1 && !old(turns)[1].expired && old(s.lock) == None
              && Joinable(old(s.pods), desired) ==>
                match old(s.pods)[desired.name].phase
                case Succeeded => ret == Some(Success(old(s.pods)[desired.name]))
                case Failed => ret == Some(Failure(Internal))
                case _ => ret == Some(Failure(Canceled))
    {
      Advance(Begin(c, desired));
      var locked := Acquires(c, desired);
      if !locked {
        ret := None;
      } else {
        var r := RunLocked(c, desired);
        ret := Some(r);
      }
      if Initial(max, start) {
        InvRun(max, start, trace);
      }
      if Fresh(start) && ExclusiveRun(max, start, trace) && ret.Some? && ret.value.Success? {
        SuccessSawMatchingPod(max, start, trace, c);
      }
    }

    /** The body of runHelper, from the lock on. */
    method RunLocked(c: CallId, desired: Pod) returns (ret: Return)
      requires Stands(c, desired, Locked)
      modifies this
      ensures Stands(c, desired, Done(ret))
      ensures Calm(old(turns)) && |old(turns)| > 1 && !old(turns)[1].expired && Joinable(old(s.pods), desired) ==>
                match old(s.pods)[desired.name].phase
                case Succeeded => ret == Success(old(s.pods)[desired.name])
                case Failed => ret == Failure(Internal)
                case _ => ret == Failure(Canceled)
    {
      var err := EnsureHelper(c, desired);
      if err.Some? {
        return Failure(err.value);
      }
      var terminal, failure := WaitForHelper(c, desired);
      if !terminal {
        return Failure(failure.value);
      }
      ret := DeleteHelper(c, desired, failure);
    }

    /** The cleanup ignores its own errors: the call returns what it saw. */
    method DeleteHelper(c: CallId, desired: Pod, failure: Option<Code>) returns (ret: Return)
      requires Valid() && c in s.calls && s.calls[c].desired == desired && s.calls[c].pc.Seen?
      requires failure == if s.calls[c].pc.pod.phase == Succeeded then None else Some(Internal)
      modifies this
      ensures Stands(c, desired, Done(ret))
      ensures ret == match failure case None => Success(old(s.calls[c].pc.pod)) case Some(code) => Failure(code)
      ensures Calm(old(turns)) ==> Dismissed(old(s.pods), s.pods, desired.name)
    {
      var seen := s.calls[c].pc.pod;
      var turn := Yield(c);
      Advance(Cleanup(c, turn.del));
      return match failure case None => Success(seen) case Some(code) => Failure(code);
    }
  }
}
