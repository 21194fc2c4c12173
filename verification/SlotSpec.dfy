/**
 What the message slot driver does, on values: each minor has a list of channels, and open files point into the lists.
 */
module SlotSpec {
  import opened Options

  type Byte = bv8

  const BUF_LEN := 128
  const MINORS := 256
  // _IOW(240, 0, unsigned long)
  const MSG_SLOT_CHANNEL := 0x4008_F000
  // unsigned int holds a channel id, unsigned long the parameter of ioctl
  const ID_SPAN := 0x1_0000_0000

  /** EBADF and ENXIO are the kernel's answers, before the driver is reached. */
  datatype Errno = EINVAL | EMSGSIZE | EWOULDBLOCK | ENOSPC | ENOMEM | EBADF | ENXIO

  datatype Answer = Failed(errno: Errno) | Done(count: nat) | Data(message: seq<Byte>)

  /** A node of a list; no message has been written while `message` is empty. */
  datatype Channel = Channel(id: nat, message: seq<Byte>)

  /** `bound` is the position in the minor's list of the node that `private_data` points to. */
  datatype OpenFile = OpenFile(minor: nat, bound: Option<nat>)

  datatype State = State(lists: seq<seq<Channel>>, files: seq<OpenFile>)

  /** `memory` says whether `kmalloc` would succeed. */
  datatype Call =
    | Open(minor: nat)
    | Ioctl(file: nat, command: nat, param: nat, memory: bool)
    | Write(file: nat, data: seq<Byte>)
    | Read(file: nat, length: nat)

  datatype Outcome = Outcome(state: State, answer: Answer)

  function Init(): State {
    State(seq(MINORS, _ => []), [])
  }

  // ---------------------------------------------------------------- the calls

  /** The first node of a list with the given id, compared as the full parameter. */
  function Find(list: seq<Channel>, param: nat): (r: Option<nat>)
    ensures r.Some? ==> r.value < |list| && list[r.value].id == param && forall i :: 0 <= i < r.value ==>
      list[i].id != param
    ensures r.None? ==> forall i :: 0 <= i < |list| ==> list[i].id != param
  {
    if list == [] then None
    else if list[0].id == param then Some(0)
    else match Find(list[1..], param) case None => None case Some(i) => Some(i + 1)
  }

  function Bind(s: State, f: nat, i: nat): State
    requires f < |s.files|
  {
    s.(files := s.files[f := s.files[f].(bound := Some(i))])
  }

  /** A new node keeps only the low 32 bits of the parameter. */
  function Append(s: State, m: nat, param: nat): State
    requires m < |s.lists|
  {
    s.(lists := s.lists[m := s.lists[m] + [Channel(param % ID_SPAN, [])]])
  }

  function SetMessage(s: State, m: nat, i: nat, data: seq<Byte>): State
    requires m < |s.lists| && i < |s.lists[m]|
  {
    s.(lists := s.lists[m := s.lists[m][i := s.lists[m][i].(message := data)]])
  }

  /** Every file is on a minor of the device, and bound to a node of that minor's list or to none. */
  ghost predicate IsState(s: State) {
    && |s.lists| == MINORS
    && (forall f :: 0 <= f < |s.files| ==> s.files[f].minor < MINORS)
    && (forall f :: 0 <= f < |s.files| && s.files[f].bound.Some? ==>
      s.files[f].bound.value < |s.lists[s.files[f].minor]|)
  }

  function DeviceIoctl(s: State, f: nat, command: nat, param: nat, memory: bool): (o: Outcome)
    requires IsState(s) && f < |s.files|
    ensures IsState(o.state)
  {
    if command != MSG_SLOT_CHANNEL || param == 0 then Outcome(s, Failed(EINVAL)) else
    var m := s.files[f].minor;
    match Find(s.lists[m], param)
    case Some(i) => Outcome(Bind(s, f, i), Done(0))
    case None =>
      if memory then Outcome(Bind(Append(s, m, param), f, |s.lists[m]|), Done(0))
      else Outcome(s, Failed(ENOMEM))
  }

  function DeviceWrite(s: State, f: nat, data: seq<Byte>): (o: Outcome)
    requires IsState(s) && f < |s.files|
    ensures IsState(o.state)
  {
    var file := s.files[f];
    if file.bound.None? then Outcome(s, Failed(EINVAL))
    else if |data| == 0 || |data| > BUF_LEN then Outcome(s, Failed(EMSGSIZE))
    else Outcome(SetMessage(s, file.minor, file.bound.value, data), Done(|data|))
  }

  function DeviceRead(s: State, f: nat, length: nat): Answer
    requires IsState(s) && f < |s.files|
  {
    var file := s.files[f];
    if file.bound.None? then Failed(EINVAL) else
    var message := s.lists[file.minor][file.bound.value].message;
    if message == [] then Failed(EWOULDBLOCK)
    else if length < |message| then Failed(ENOSPC)
    else Data(message)
  }

  function Step(s: State, c: Call): (o: Outcome)
    requires IsState(s)
    ensures IsState(o.state)
  {
    match c
    case Open(minor) =>
      if minor < MINORS then Outcome(s.(files := s.files + [OpenFile(minor, None)]), Done(0))
        else Outcome(s, Failed(ENXIO))
    case Ioctl(f, command, param, memory) =>
      if f < |s.files| then DeviceIoctl(s, f, command, param, memory) else Outcome(s, Failed(EBADF))
    case Write(f, data) => if f < |s.files| then DeviceWrite(s, f, data) else Outcome(s, Failed(EBADF))
    case Read(f, length) => Outcome(s, if f < |s.files| then DeviceRead(s, f, length) else Failed(EBADF))
  }

  /** The state after a sequence of calls, in whatever order the processes make them. */
  function Run(calls: seq<Call>): (s: State)
    ensures IsState(s)
  {
    if calls == [] then Init() else Step(Run(calls[..|calls| - 1]), calls[|calls| - 1]).state
  }

  /** The answer to the last call. */
  function LastAnswer(calls: seq<Call>): Answer
    requires calls != []
  {
    Step(Run(calls[..|calls| - 1]), calls[|calls| - 1]).answer
  }

  // ---------------------------------------------------------------- what a call leaves alone

  /** Lists grow only at the tail: earlier nodes keep their places and their ids. */
  ghost predicate Extends(s: State, s': State) {
    && IsState(s) && IsState(s') && |s.files| <= |s'.files|
    && (forall m :: 0 <= m < MINORS ==> ListExtends(s.lists[m], s'.lists[m]))
    && (forall f :: 0 <= f < |s.files| ==> s'.files[f].minor == s.files[f].minor)
  }

  ghost predicate ListExtends(list: seq<Channel>, list': seq<Channel>) {
    |list| <= |list'| && forall i :: 0 <= i < |list| ==> list'[i].id == list[i].id
  }

  lemma StepExtends(s: State, c: Call)
    requires IsState(s)
    ensures Extends(s, Step(s, c).state)
  {
  }

  /** A call that fails changes nothing, whether for a bad argument or for want of memory. */
  lemma FailuresChangeNothing(s: State, c: Call)
    requires IsState(s) && Step(s, c).answer.Failed?
    ensures Step(s, c).state == s
  {
  }

  /** Nodes keep their places, ids and files through any further calls, so a saved pointer stays good. */
  lemma {:induction false} ListsOnlyGrow(calls: seq<Call>, k: nat)
    requires k <= |calls|
    ensures Extends(Run(calls[..k]), Run(calls))
  {
    if k == |calls| {
      assert calls[..k] == calls;
    } else {
      var init := calls[..|calls| - 1];
      assert init[..k] == calls[..k];
      ListsOnlyGrow(init, k);
      StepExtends(Run(init), calls[|calls| - 1]);
    }
  }
}
