/** The reference for the driver: a device that is a map from (minor, channel) to a message, without lists or nodes. */
module SlotMap {
  import opened Options
  import opened SlotSpec

  datatype Key = Key(minor: nat, channel: nat)

  /** An open file and the channel it has selected. */
  datatype MapFile = MapFile(minor: nat, channel: Option<nat>)

  /** A channel is in the map once it has been selected; its message is empty until one is written. */
  datatype Device = Device(files: seq<MapFile>, messages: map<Key, seq<Byte>>)

  datatype MapOutcome = MapOutcome(device: Device, answer: Answer)

  ghost predicate IsDevice(d: Device) {
    forall f :: 0 <= f < |d.files| && d.files[f].channel.Some? ==>
      Key(d.files[f].minor, d.files[f].channel.value) in d.messages
  }

  function SelectInMap(d: Device, f: nat, command: nat, param: nat, memory: bool): MapOutcome
    requires f < |d.files|
  {
    var key := Key(d.files[f].minor, param);
    var bound := d.(files := d.files[f := MapFile(key.minor, Some(param))]);
    if command != 0x4008_F000 || param == 0 then MapOutcome(d, Failed(EINVAL))
    else if key in d.messages then MapOutcome(bound, Done(0))
    else if memory then MapOutcome(bound.(messages := d.messages[key := []]), Done(0))
    else MapOutcome(d, Failed(ENOMEM))
  }

  function WriteToMap(d: Device, f: nat, data: seq<Byte>): MapOutcome
    requires f < |d.files|
  {
    var file := d.files[f];
    if file.channel.None? then MapOutcome(d, Failed(EINVAL))
    else if |data| == 0 || |data| > 128 then MapOutcome(d, Failed(EMSGSIZE))
    else MapOutcome(d.(messages := d.messages[Key(file.minor, file.channel.value) := data]), Done(|data|))
  }

  function ReadFromMap(d: Device, f: nat, length: nat): Answer
    requires IsDevice(d) && f < |d.files|
  {
    var file := d.files[f];
    if file.channel.None? then Failed(EINVAL) else
    var message := d.messages[Key(file.minor, file.channel.value)];
    if message == [] then Failed(EWOULDBLOCK)
    else if length < |message| then Failed(ENOSPC)
    else Data(message)
  }

  function MapStep(d: Device, c: Call): (o: MapOutcome)
    requires IsDevice(d)
    ensures IsDevice(o.device)
  {
    match c
    case Open(minor) =>
      if minor < 256 then MapOutcome(d.(files := d.files + [MapFile(minor, None)]), Done(0))
        else MapOutcome(d, Failed(ENXIO))
    case Ioctl(f, command, param, memory) =>
      if f < |d.files| then SelectInMap(d, f, command, param, memory) else MapOutcome(d, Failed(EBADF))
    case Write(f, data) => if f < |d.files| then WriteToMap(d, f, data) else MapOutcome(d, Failed(EBADF))
    case Read(f, length) => MapOutcome(d, if f < |d.files| then ReadFromMap(d, f, length) else Failed(EBADF))
  }

  function MapRun(calls: seq<Call>): (d: Device)
    ensures IsDevice(d)
  {
    if calls == [] then Device([], map[]) else MapStep(MapRun(calls[..|calls| - 1]), calls[|calls| - 1]).device
  }

  /** What the map answers to a call after a history of calls. */
  function Expected(calls: seq<Call>, c: Call): Answer {
    MapStep(MapRun(calls), c).answer
  }

  // ---------------------------------------------------------------- the map holds what was last written

  /** The last message that a file with this channel selected wrote with success. */
  function LastWritten(calls: seq<Call>, key: Key): Option<seq<Byte>> {
    if calls == [] then None else
    var init, c := calls[..|calls| - 1], calls[|calls| - 1];
    if c.Write? && Expected(init, c).Done? && MapRun(init).files[c.file] == MapFile(key.minor, Some(key.channel))
      then Some(c.data)
    else LastWritten(init, key)
  }

  lemma OneCallWrites(d: Device, c: Call, key: Key)
    requires IsDevice(d)
    ensures var o := MapStep(d, c);
      if c.Write? && o.answer.Done? && d.files[c.file] == MapFile(key.minor, Some(key.channel)) then
        key in o.device.messages && o.device.messages[key] == c.data && c.data != []
      else
        && (key in d.messages ==> key in o.device.messages && o.device.messages[key] == d.messages[key])
        && (key !in d.messages && key in o.device.messages ==> o.device.messages[key] == [])
  {
  }

  /** The message of a channel is the one last written to it, by whatever file; other channels are not affected. */
  lemma {:induction false} MapHoldsTheLastWrite(calls: seq<Call>, key: Key)
    ensures LastWritten(calls, key).Some? ==>
      LastWritten(calls, key).value != [] && key in MapRun(calls).messages
        && MapRun(calls).messages[key] == LastWritten(calls, key).value
    ensures LastWritten(calls, key).None? && key in MapRun(calls).messages ==> MapRun(calls).messages[key] == []
  {
    if calls != [] {
      var init := calls[..|calls| - 1];
      MapHoldsTheLastWrite(init, key);
      OneCallWrites(MapRun(init), calls[|calls| - 1], key);
    }
  }

  // ---------------------------------------------------------------- the lists hold the map

  /** No call passes ioctl a parameter that an unsigned int cannot hold. */
  ghost predicate Narrow(calls: seq<Call>) {
    forall k :: 0 <= k < |calls| && calls[k].Ioctl? ==> calls[k].param < 0x1_0000_0000
  }

  function ChannelOf(s: State, f: nat): Option<nat>
    requires IsState(s) && f < |s.files|
  {
    match s.files[f].bound
    case None => None
    case Some(i) => Some(s.lists[s.files[f].minor][i].id)
  }

  ghost predicate FilesAgree(d: Device, s: State)
    requires IsState(s)
  {
    |d.files| == |s.files| && forall f :: 0 <= f < |s.files| ==>
      d.files[f] == MapFile(s.files[f].minor, ChannelOf(s, f))
  }

  /** No two nodes of a list have the same id. */
  ghost predicate DistinctIds(list: seq<Channel>) {
    && (forall i :: 0 <= i < |list| ==> 0 < list[i].id < 0x1_0000_0000)
    && (forall i, j :: 0 <= i < j < |list| ==> list[i].id != list[j].id)
  }

  ghost predicate EntryAgrees(d: Device, s: State, m: nat, p: nat)
    requires m < |s.lists|
  {
    match Find(s.lists[m], p)
    case None => Key(m, p) !in d.messages
    case Some(i) => Key(m, p) in d.messages && d.messages[Key(m, p)] == s.lists[m][i].message
  }

  ghost predicate Agrees(d: Device, s: State) {
    && IsDevice(d) && IsState(s)
    && FilesAgree(d, s)
    && (forall m :: 0 <= m < 256 ==> DistinctIds(s.lists[m]))
    && (forall m: nat, p: nat :: m < 256 ==> EntryAgrees(d, s, m, p))
  }

  /** A node of a list without repeated ids is the one that is found for its id. */
  lemma NodeIsFound(list: seq<Channel>, i: nat)
    requires DistinctIds(list) && i < |list|
    ensures Find(list, list[i].id) == Some(i)
  {
  }

  lemma FindAfterAppend(list: seq<Channel>, node: Channel, p: nat)
    ensures Find(list + [node], p) ==
      if Find(list, p).Some? then Find(list, p) else if node.id == p then Some(|list|) else None
  {
    assert forall i :: 0 <= i < |list| ==> (list + [node])[i] == list[i];
    if Find(list, p).Some? {
      assert (list + [node])[Find(list, p).value].id == p;
    } else {
      assert (list + [node])[|list|] == node;
    }
  }

  lemma FindAfterMessage(list: seq<Channel>, k: nat, data: seq<Byte>, p: nat)
    requires k < |list|
    ensures Find(list[k := list[k].(message := data)], p) == Find(list, p)
  {
    var list' := list[k := list[k].(message := data)];
    assert forall i :: 0 <= i < |list| ==> list'[i].id == list[i].id;
    var r, r' := Find(list, p), Find(list', p);
    assert r.Some? ==> list'[r.value].id == p;
    assert r'.Some? ==> list[r'.value].id == p;
  }

  // ---------------------------------------------------------------- one call

  /** The node that a file is bound to holds the message of the channel it has selected. */
  lemma BoundNodeAgrees(d: Device, s: State, f: nat)
    requires Agrees(d, s) && f < |s.files| && s.files[f].bound.Some?
    ensures var m, i := s.files[f].minor, s.files[f].bound.value;
      && d.files[f] == MapFile(m, Some(s.lists[m][i].id)) && Key(m, s.lists[m][i].id) in d.messages
      && d.messages[Key(m, s.lists[m][i].id)] == s.lists[m][i].message
  {
    var m, i := s.files[f].minor, s.files[f].bound.value;
    NodeIsFound(s.lists[m], i);
    assert EntryAgrees(d, s, m, s.lists[m][i].id);
  }

  lemma AnswerAgrees(d: Device, s: State, c: Call)
    requires Agrees(d, s)
    ensures Step(s, c).answer == MapStep(d, c).answer
  {
    if c.Read? && c.file < |s.files| && s.files[c.file].bound.Some? {
      BoundNodeAgrees(d, s, c.file);
    } else if c.Ioctl? && c.file < |s.files| {
      assert EntryAgrees(d, s, s.files[c.file].minor, c.param);
    }
  }

  lemma OpenAgrees(d: Device, s: State, minor: nat)
    requires Agrees(d, s) && minor < 256
    ensures Agrees(MapStep(d, Open(minor)).device, Step(s, Open(minor)).state)
  {
    var d', s' := MapStep(d, Open(minor)).device, Step(s, Open(minor)).state;
    forall m: nat, p: nat | m < 256 ensures EntryAgrees(d', s', m, p) {
      assert EntryAgrees(d, s, m, p);
    }
  }

  lemma BoundFilesAgree(d: Device, s: State, f: nat, i: nat)
    requires IsState(s) && FilesAgree(d, s) && f < |s.files| && i < |s.lists[s.files[f].minor]|
    ensures IsState(Bind(s, f, i))
    ensures FilesAgree(d.(files := d.files[f := MapFile(s.files[f].minor, Some(s.lists[s.files[f].minor][i].id))]),
      Bind(s, f, i))
  {
    var s' := Bind(s, f, i);
    forall g: nat | g < |s.files| && g != f ensures ChannelOf(s', g) == ChannelOf(s, g) {
      assert s'.files[g] == s.files[g];
    }
    assert ChannelOf(s', f) == Some(s.lists[s.files[f].minor][i].id);
  }

  lemma FoundAgrees(d: Device, s: State, f: nat, param: nat, i: nat)
    requires Agrees(d, s) && f < |s.files| && Find(s.lists[s.files[f].minor], param) == Some(i)
    ensures Agrees(d.(files := d.files[f := MapFile(d.files[f].minor, Some(param))]), Bind(s, f, i))
  {
    var d' := d.(files := d.files[f := MapFile(d.files[f].minor, Some(param))]);
    BoundFilesAgree(d, s, f, i);
    assert EntryAgrees(d, s, s.files[f].minor, param);
    assert IsDevice(d');
    forall m: nat, p: nat | m < 256 ensures EntryAgrees(d', Bind(s, f, i), m, p) {
      assert EntryAgrees(d, s, m, p);
    }
  }

  lemma AppendAgrees(d: Device, s: State, m: nat, param: nat)
    requires Agrees(d, s) && m < 256 && Find(s.lists[m], param).None? && 0 < param < 0x1_0000_0000
    ensures Agrees(d.(messages := d.messages[Key(m, param) := []]), Append(s, m, param))
    ensures Find(Append(s, m, param).lists[m], param) == Some(|s.lists[m]|)
  {
    var d', s' := d.(messages := d.messages[Key(m, param) := []]), Append(s, m, param);
    AppendKeepsIds(s, m, param);
    FindAfterAppend(s.lists[m], Channel(param, []), param);
    forall n: nat, p: nat | n < 256 ensures EntryAgrees(d', s', n, p) {
      assert EntryAgrees(d, s, n, p);
      FindAfterAppend(s.lists[m], Channel(param, []), p);
    }
  }

  lemma AppendKeepsIds(s: State, m: nat, param: nat)
    requires IsState(s) && (forall n :: 0 <= n < 256 ==> DistinctIds(s.lists[n]))
    requires m < 256 && Find(s.lists[m], param).None? && 0 < param < 0x1_0000_0000
    ensures var s' := Append(s, m, param);
      && IsState(s') && s'.lists == s.lists[m := s.lists[m] + [Channel(param, [])]]
      && (forall n :: 0 <= n < 256 ==> DistinctIds(s'.lists[n]))
      && forall f :: 0 <= f < |s.files| ==> ChannelOf(s', f) == ChannelOf(s, f)
  {
    assert param % 0x1_0000_0000 == param;
    var s' := Append(s, m, param);
    forall n | 0 <= n < 256 ensures DistinctIds(s'.lists[n]) {
      assert DistinctIds(s.lists[n]);
    }
  }

  lemma MessageKeepsIds(s: State, m: nat, k: nat, data: seq<Byte>)
    requires IsState(s) && (forall n :: 0 <= n < 256 ==> DistinctIds(s.lists[n])) && m < 256 && k < |s.lists[m]|
    ensures var s' := SetMessage(s, m, k, data);
      && IsState(s') && (forall n :: 0 <= n < 256 ==> DistinctIds(s'.lists[n]))
      && forall f :: 0 <= f < |s.files| ==> ChannelOf(s', f) == ChannelOf(s, f)
  {
    var s' := SetMessage(s, m, k, data);
    forall n | 0 <= n < 256 ensures DistinctIds(s'.lists[n]) {
      assert DistinctIds(s.lists[n]);
    }
  }

  lemma MessageAgrees(d: Device, s: State, m: nat, k: nat, data: seq<Byte>)
    requires Agrees(d, s) && m < 256 && k < |s.lists[m]|
    ensures Agrees(d.(messages := d.messages[Key(m, s.lists[m][k].id) := data]), SetMessage(s, m, k, data))
  {
    var id := s.lists[m][k].id;
    var d', s' := d.(messages := d.messages[Key(m, id) := data]), SetMessage(s, m, k, data);
    MessageKeepsIds(s, m, k, data);
    NodeIsFound(s.lists[m], k);
    forall n: nat, p: nat | n < 256 ensures EntryAgrees(d', s', n, p) {
      assert EntryAgrees(d, s, n, p);
      FindAfterMessage(s.lists[m], k, data, p);
    }
  }

  lemma IoctlAgrees(d: Device, s: State, f: nat, command: nat, param: nat, memory: bool)
    requires Agrees(d, s) && f < |s.files| && param < 0x1_0000_0000
    ensures Agrees(SelectInMap(d, f, command, param, memory).device, DeviceIoctl(s, f, command, param, memory).state)
  {
    var m := s.files[f].minor;
    assert EntryAgrees(d, s, m, param);
    if command == 0x4008_F000 && param != 0 {
      match Find(s.lists[m], param)
      case Some(i) =>
        FoundAgrees(d, s, f, param, i);
      case None =>
        if memory {
          AppendAgrees(d, s, m, param);
          FoundAgrees(d.(messages := d.messages[Key(m, param) := []]), Append(s, m, param), f, param, |s.lists[m]|);
        }
    }
  }

  lemma WriteAgrees(d: Device, s: State, f: nat, data: seq<Byte>)
    requires Agrees(d, s) && f < |s.files|
    ensures Agrees(WriteToMap(d, f, data).device, DeviceWrite(s, f, data).state)
  {
    if s.files[f].bound.Some? && 0 < |data| <= 128 {
      BoundNodeAgrees(d, s, f);
      MessageAgrees(d, s, s.files[f].minor, s.files[f].bound.value, data);
    }
  }

  lemma CallAgrees(d: Device, s: State, c: Call)
    requires Agrees(d, s) && (c.Ioctl? ==> c.param < 0x1_0000_0000)
    ensures Agrees(MapStep(d, c).device, Step(s, c).state)
  {
    match c
    case Open(minor) =>
      if minor < 256 {
        OpenAgrees(d, s, minor);
      }
    case Ioctl(f, command, param, memory) =>
      if f < |s.files| {
        IoctlAgrees(d, s, f, command, param, memory);
      }
    case Write(f, data) =>
      if f < |s.files| {
        WriteAgrees(d, s, f, data);
      }
    case Read(_, _) =>
  }

  /** With parameters that fit, the lists hold the map: ids are distinct, and each channel has one node. */
  lemma {:induction false} NarrowCallsAgree(calls: seq<Call>)
    requires Narrow(calls)
    ensures Agrees(MapRun(calls), Run(calls))
  {
    if calls == [] {
      InitAgrees();
    } else {
      var init, c := calls[..|calls| - 1], calls[|calls| - 1];
      NarrowCallsAgree(init);
      CallAgrees(MapRun(init), Run(init), c);
    }
  }

  lemma InitAgrees()
    ensures Agrees(Device([], map[]), Init())
  {
    forall m: nat, p: nat | m < 256 ensures EntryAgrees(Device([], map[]), Init(), m, p) {
    }
  }

  lemma RunAppend(calls: seq<Call>, c: Call)
    ensures Run(calls + [c]) == Step(Run(calls), c).state && LastAnswer(calls + [c]) == Step(Run(calls), c).answer
    ensures MapRun(calls + [c]) == MapStep(MapRun(calls), c).device
  {
    assert (calls + [c])[..|calls|] == calls;
  }

  /** With parameters that fit, every answer of the driver is the map's, for any number of files and processes. */
  lemma AnswersFollowTheMap(calls: seq<Call>, c: Call)
    requires Narrow(calls + [c])
    ensures LastAnswer(calls + [c]) == Expected(calls, c)
  {
    assert forall k :: 0 <= k < |calls| ==> (calls + [c])[k] == calls[k];
    NarrowCallsAgree(calls);
    AnswerAgrees(MapRun(calls), Run(calls), c);
    RunAppend(calls, c);
  }

  /** A read returns the last message written with success, by any file, to the channel that its file has selected. */
  lemma ReadReturnsTheLastWrite(calls: seq<Call>, f: nat, length: nat)
    requires Narrow(calls) && f < |MapRun(calls).files| && MapRun(calls).files[f].channel.Some?
    ensures var file := MapRun(calls).files[f];
      LastAnswer(calls + [Read(f, length)]) ==
        match LastWritten(calls, Key(file.minor, file.channel.value))
        case None => Failed(EWOULDBLOCK)
        case Some(message) => if length < |message| then Failed(ENOSPC) else Data(message)
  {
    var file := MapRun(calls).files[f];
    MapHoldsTheLastWrite(calls, Key(file.minor, file.channel.value));
    AnswersFollowTheMap(calls, Read(f, length));
  }
}
