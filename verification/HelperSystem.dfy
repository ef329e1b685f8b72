/**
 The helper protocol as a labelled step system: any number of calls to `runHelper` share a pod store and
 the admission lock, and the environment moves, removes and adds pods between any two API requests.
 One label is one API request of one call, one local decision that needs the lock, or one environment event.
 */
module HelperSystem {
  import opened Wrappers
  import opened HelperPods

  type Store = map<string, Pod>
  type CallId = nat

  /** How a call returned: nil after seeing a pod succeed, or an error. */
  datatype Return = Success(seen: Pod) | Failure(code: Code)

  datatype PC =
    | Start
    | Locked                      // holds the lock, has not looked for the pod yet
    | Missing                     // no pod of that name: about to list
    | Listed(items: seq<Pod>)     // holds a list that may be stale by now: about to count
    | Admitted                    // under the limit: about to create
    | Collided                    // create said AlreadyExists: about to read the pod
    | Forcing                     // the pod was terminating: about to delete it without grace
    | Retiring                    // the pod is finished and belongs to another request: about to delete it
    | Waiting                     // lock released, polling
    | Seen(pod: Pod)              // saw the pod in a terminal phase: about to delete it
    | Done(ret: Return)

  datatype Call = Call(desired: Pod, pc: PC)

  datatype State = State(pods: Store, lock: Option<CallId>, calls: map<CallId, Call>)

  /** A create request may take effect although its caller gets an error. */
  datatype CreateFate = CreateReplied | CreateReplyLost | CreateFailed

  /** A delete either removes the pod at once or leaves it terminating; its reply may be lost. */
  datatype DeleteFate = DeleteReplied(removed: bool) | DeleteReplyLost(removed: bool) | DeleteFailed

  datatype Label =
    | Begin(c: CallId, desired: Pod)
    | Acquire(c: CallId)
    | Get(c: CallId, fails: bool)
    | List(c: CallId, fails: bool, items: seq<Pod>)
    | Count(c: CallId)
    | Create(c: CallId, fate: CreateFate)
    | Reget(c: CallId, fails: bool)
    | ForceDelete(c: CallId, del: DeleteFate)
    | Retire(c: CallId, del: DeleteFate)
    | Poll(c: CallId, fails: bool)
    | Cancel(c: CallId)
    | Cleanup(c: CallId, del: DeleteFate)
    | Restart
    | EnvPhase(name: string, phase: Phase)
    | EnvTerminate(name: string)
    | EnvRemove(name: string)
    | EnvCreate(pod: Pod)

  // ---------------------------------------------------------------- parts of a step

  predicate HoldsLock(pc: PC) {
    || pc.Locked? || pc.Missing? || pc.Listed? || pc.Admitted? || pc.Collided? || pc.Forcing? || pc.Retiring?
  }

  predicate At(s: State, c: CallId, pc: PC) {
    c in s.calls && s.calls[c].pc == pc
  }

  /** Call c goes on at pc; leaving ensureHelper releases the lock. */
  function Goto(s: State, c: CallId, pc: PC): State
    requires c in s.calls
  {
    s.(calls := s.calls[c := s.calls[c].(pc := pc)],
       lock := if HoldsLock(s.calls[c].pc) && !HoldsLock(pc) then None else s.lock)
  }

  function Fail(s: State, c: CallId, code: Code): State
    requires c in s.calls
  {
    Goto(s, c, Done(Failure(code)))
  }

  /** Where useExistingHelper takes the call. */
  function UseExisting(desired: Pod, existing: Pod): PC {
    if existing.deleting then Forcing
    else if Derives(desired.spec, existing.spec) then Waiting
    else if Terminal(existing) then Retiring
    else Done(Failure(Unavailable))
  }

  predicate Lists(items: seq<Pod>, pods: Store) {
    && (forall i | 0 <= i < |items| :: items[i].name in pods && pods[items[i].name] == items[i])
    && (forall n | n in pods :: exists i | 0 <= i < |items| :: items[i].name == n)
    && (forall i, j | 0 <= i < j < |items| :: items[i].name != items[j].name)
  }

  predicate UnderLimit(desired: Pod, items: seq<Pod>, max: int) {
    forall vgName | vgName in Groups(desired) :: |Counted(items, desired, vgName)| < max
  }

  function DeleteEffect(pods: Store, name: string, del: DeleteFate): Store {
    if name !in pods || del.DeleteFailed? then pods
    else if del.removed then pods - {name}
    else pods[name := pods[name].(deleting := true)]
  }

  // ---------------------------------------------------------------- steps

  function StepAcquire(s: State, c: CallId): Option<State> {
    if At(s, c, Start) && s.lock == None then Some(Goto(s, c, Locked).(lock := Some(c))) else None
  }

  function StepGet(s: State, c: CallId, fails: bool): Option<State> {
    if !At(s, c, Locked) then None
    else if fails then Some(Fail(s, c, Unavailable))
    else if s.calls[c].desired.name in s.pods then
      Some(Goto(s, c, UseExisting(s.calls[c].desired, s.pods[s.calls[c].desired.name])))
    else Some(Goto(s, c, Missing))
  }

  function StepList(max: int, s: State, c: CallId, fails: bool, items: seq<Pod>): Option<State> {
    if !At(s, c, Missing) then None
    else if max <= 0 then Some(Fail(s, c, Internal))
    else if fails then Some(Fail(s, c, Unavailable))
    else if Lists(items, s.pods) then Some(Goto(s, c, Listed(items)))
    else None
  }

  function StepCount(max: int, s: State, c: CallId): Option<State> {
    if c !in s.calls || !s.calls[c].pc.Listed? then None
    else if Groups(s.calls[c].desired) == {} then Some(Fail(s, c, Internal))
    else if !UnderLimit(s.calls[c].desired, s.calls[c].pc.items, max) then Some(Fail(s, c, Aborted))
    else Some(Goto(s, c, Admitted))
  }

  function StepCreate(s: State, c: CallId, fate: CreateFate): Option<State> {
    if !At(s, c, Admitted) then None
    else
      var desired := s.calls[c].desired;
      if fate.CreateFailed? then Some(Fail(s, c, Other))
      else if desired.name in s.pods then
        Some(if fate.CreateReplied? then Goto(s, c, Collided) else Fail(s, c, Other))
      else
        var t := s.(pods := s.pods[desired.name := Stored(desired)]);
        Some(if fate.CreateReplied? then Goto(t, c, Waiting) else Fail(t, c, Other))
  }

  function StepReget(s: State, c: CallId, fails: bool): Option<State> {
    if !At(s, c, Collided) then None
    else if fails || s.calls[c].desired.name !in s.pods then Some(Fail(s, c, Unavailable))
    else Some(Goto(s, c, UseExisting(s.calls[c].desired, s.pods[s.calls[c].desired.name])))
  }

  /** Both deletions under the lock end in an error that asks for a retry. A delete without grace removes. */
  function StepDelete(s: State, c: CallId, pc: PC, del: DeleteFate): Option<State> {
    if !At(s, c, pc) then None
    else if pc.Forcing? && !del.DeleteFailed? && !del.removed then None
    else Some(Fail(s.(pods := DeleteEffect(s.pods, s.calls[c].desired.name, del)), c, Unavailable))
  }

  function StepPoll(s: State, c: CallId, fails: bool): Option<State> {
    if !At(s, c, Waiting) then None
    else if fails then Some(s)
    else
      var name := s.calls[c].desired.name;
      if name !in s.pods then Some(Fail(s, c, Unavailable))
      else if Terminal(s.pods[name]) then Some(Goto(s, c, Seen(s.pods[name])))
      else Some(s)
  }

  function StepCleanup(s: State, c: CallId, del: DeleteFate): Option<State> {
    if c !in s.calls || !s.calls[c].pc.Seen? then None
    else
      var seen := s.calls[c].pc.pod;
      var t := s.(pods := DeleteEffect(s.pods, s.calls[c].desired.name, del));
      Some(Goto(t, c, Done(if seen.phase == Succeeded then Success(seen) else Failure(Internal))))
  }

  /** Terminal phases are final; a deletion request is never withdrawn; only the driver makes helper pods. */
  function StepEnvironment(s: State, l: Label): Option<State> {
    match l
    case Restart => Some(s.(calls := map[], lock := None))
    case EnvPhase(name, phase) =>
      if name in s.pods && !Terminal(s.pods[name]) then
        Some(s.(pods := s.pods[name := s.pods[name].(phase := phase)]))
      else None
    case EnvTerminate(name) =>
      if name in s.pods then Some(s.(pods := s.pods[name := s.pods[name].(deleting := true)])) else None
    case EnvRemove(name) => Some(s.(pods := s.pods - {name}))
    case EnvCreate(pod) =>
      if pod.name !in s.pods && !IsHelper(pod) then Some(s.(pods := s.pods[pod.name := pod])) else None
    case _ => None
  }

  function Step(max: int, s: State, l: Label): Option<State> {
    match l
    case Begin(c, desired) =>
      if c !in s.calls then Some(s.(calls := s.calls[c := Call(desired, Start)])) else None
    case Acquire(c) => StepAcquire(s, c)
    case Get(c, fails) => StepGet(s, c, fails)
    case List(c, fails, items) => StepList(max, s, c, fails, items)
    case Count(c) => StepCount(max, s, c)
    case Create(c, fate) => StepCreate(s, c, fate)
    case Reget(c, fails) => StepReget(s, c, fails)
    case ForceDelete(c, del) => StepDelete(s, c, Forcing, del)
    case Retire(c, del) => StepDelete(s, c, Retiring, del)
    case Poll(c, fails) => StepPoll(s, c, fails)
    case Cancel(c) => if At(s, c, Waiting) then Some(Fail(s, c, Canceled)) else None
    case Cleanup(c, del) => StepCleanup(s, c, del)
    case _ => StepEnvironment(s, l)
  }

  /** The call whose label it is, if it is a call's. */
  function Owner(l: Label): Option<CallId> {
    match l
    case Begin(c, _) => Some(c)
    case Acquire(c) => Some(c)
    case Get(c, _) => Some(c)
    case List(c, _, _) => Some(c)
    case Count(c) => Some(c)
    case Create(c, _) => Some(c)
    case Reget(c, _) => Some(c)
    case ForceDelete(c, _) => Some(c)
    case Retire(c, _) => Some(c)
    case Poll(c, _) => Some(c)
    case Cancel(c) => Some(c)
    case Cleanup(c, _) => Some(c)
    case _ => None
  }

  /** A call is moved by its own labels only, and lost only in a restart. */
  lemma OthersKeepCall(max: int, s: State, l: Label, c: CallId)
    requires c in s.calls && Owner(l) != Some(c) && !l.Restart? && Step(max, s, l).Some?
    ensures var t := Step(max, s, l).value; c in t.calls && t.calls[c] == s.calls[c]
  {
  }

  /** The state after the labels, when every one of them is possible in turn. */
  ghost function Run(max: int, s: State, labels: seq<Label>): Option<State> {
    if labels == [] then Some(s)
    else
      match Run(max, s, labels[..|labels| - 1])
      case None => None
      case Some(t) => Step(max, t, labels[|labels| - 1])
  }

  /** One more possible step extends a run. */
  lemma RunExtends(max: int, s: State, labels: seq<Label>, l: Label)
    requires Run(max, s, labels).Some?
    ensures Run(max, s, labels + [l]) == Step(max, Run(max, s, labels).value, l)
  {
    assert (labels + [l])[..|labels|] == labels;
  }
}
