/**
 Parameters of ioctl from 2^32 on: the driver stores them truncated but compares them in full. When two selections
 share a node, and for which parameters the driver is the map of `SlotMap`.
 */
module SlotWide {
  import opened Options
  import opened SlotSpec
  import opened SlotMap

  // ---------------------------------------------------------------- which node a selection binds to

  ghost predicate ShortIds(list: seq<Channel>) {
    forall i :: 0 <= i < |list| ==> list[i].id < 0x1_0000_0000
  }

  /** Whatever has been called, the ids in the lists fit an unsigned int. */
  lemma {:induction false} IdsFit(calls: seq<Call>, m: nat)
    requires m < 256
    ensures ShortIds(Run(calls).lists[m])
  {
    if calls != [] {
      IdsFit(calls[..|calls| - 1], m);
    }
  }

  /** The last call was an ioctl on minor m that succeeded. */
  predicate Selects(calls: seq<Call>, m: nat) {
    && calls != [] && calls[|calls| - 1].Ioctl? && LastAnswer(calls) == Done(0)
    && calls[|calls| - 1].file < |Run(calls).files| && Run(calls).files[calls[|calls| - 1].file].minor == m
  }

  function Param(calls: seq<Call>): nat
    requires calls != [] && calls[|calls| - 1].Ioctl?
  {
    calls[|calls| - 1].param
  }

  /** The node that the last call has bound its file to. */
  function BoundBy(calls: seq<Call>, m: nat): Option<nat>
    requires Selects(calls, m)
  {
    Run(calls).files[calls[|calls| - 1].file].bound
  }

  /** Some selection on minor m so far had a parameter with these low 32 bits. */
  predicate SelectedBefore(calls: seq<Call>, m: nat, q: nat) {
    exists j: nat :: j < |calls| && SelectedAt(calls, m, q, j)
  }

  predicate SelectedAt(calls: seq<Call>, m: nat, q: nat, j: nat)
    requires j < |calls|
  {
    Selects(calls[..j + 1], m) && Param(calls[..j + 1]) % 0x1_0000_0000 == q
  }

  lemma IoctlFinds(s: State, f: nat, command: nat, param: nat, memory: bool, m: nat, q: nat)
    requires IsState(s) && f < |s.files| && m < 256 && q < 0x1_0000_0000 && ShortIds(s.lists[m])
    ensures var o := DeviceIoctl(s, f, command, param, memory);
      Find(o.state.lists[m], q).Some? <==>
        Find(s.lists[m], q).Some? || (o.answer == Done(0) && s.files[f].minor == m && param % 0x1_0000_0000 == q)
  {
    if s.files[f].minor == m {
      FindAfterAppend(s.lists[m], Channel(param % 0x1_0000_0000, []), q);
    }
  }

  lemma WriteFinds(s: State, f: nat, data: seq<Byte>, m: nat, q: nat)
    requires IsState(s) && f < |s.files| && m < 256
    ensures Find(DeviceWrite(s, f, data).state.lists[m], q) == Find(s.lists[m], q)
  {
    if s.files[f].minor == m && s.files[f].bound.Some? {
      FindAfterMessage(s.lists[m], s.files[f].bound.value, data, q);
    }
  }

  /** What one call does to the nodes of a minor that are found for an id. */
  lemma StepFinds(calls: seq<Call>, m: nat, q: nat)
    requires calls != [] && m < 256 && q < 0x1_0000_0000
    ensures var list, list' := Run(calls[..|calls| - 1]).lists[m], Run(calls).lists[m];
      Find(list', q).Some? <==> Find(list, q).Some? || (Selects(calls, m) && Param(calls) % 0x1_0000_0000 == q)
  {
    var init, c := calls[..|calls| - 1], calls[|calls| - 1];
    var s := Run(init);
    IdsFit(init, m);
    StepExtends(s, c);
    if c.Ioctl? && c.file < |s.files| {
      IoctlFinds(s, c.file, c.command, c.param, c.memory, m, q);
    } else if c.Write? && c.file < |s.files| {
      WriteFinds(s, c.file, c.data, m, q);
    }
  }

  lemma SelectedOnceMore(calls: seq<Call>, m: nat, q: nat)
    requires calls != []
    ensures SelectedBefore(calls, m, q) <==>
      SelectedBefore(calls[..|calls| - 1], m, q) || (Selects(calls, m) && Param(calls) % 0x1_0000_0000 == q)
  {
    var init, n := calls[..|calls| - 1], |calls| - 1;
    assert calls[..n + 1] == calls;
    assert SelectedAt(calls, m, q, n) <==> Selects(calls, m) && Param(calls) % 0x1_0000_0000 == q;
    forall j: nat | j < n ensures SelectedAt(calls, m, q, j) <==> SelectedAt(init, m, q, j) {
      assert init[..j + 1] == calls[..j + 1];
    }
  }

  /** An id is in a list exactly when it is what is left of the parameter of some selection. */
  lemma {:induction false} IdsAreSelections(calls: seq<Call>, m: nat, q: nat)
    requires m < 256 && q < 0x1_0000_0000
    ensures Find(Run(calls).lists[m], q).Some? <==> SelectedBefore(calls, m, q)
  {
    if calls != [] {
      IdsAreSelections(calls[..|calls| - 1], m, q);
      StepFinds(calls, m, q);
      SelectedOnceMore(calls, m, q);
    }
  }

  /** A node that is found for an id is found where it was, however the list has grown. */
  lemma FoundWhereItWas(list: seq<Channel>, list': seq<Channel>, id: nat)
    requires ListExtends(list, list') && Find(list, id).Some?
    ensures Find(list', id) == Find(list, id)
  {
    var i := Find(list, id).value;
    assert list'[i].id == id;
    assert forall j :: 0 <= j < |list| ==> list'[j].id == list[j].id;
    var r := Find(list', id).value;
    assert list'[r].id == id;
  }

  /**
   A successful ioctl binds to the first node with its id; a parameter from 2^32 on, to a node that was not there
   before, which is the first with the low 32 bits for id unless there was one.
   */
  lemma SelectsANode(calls: seq<Call>, m: nat)
    requires Selects(calls, m)
    ensures m < 256 && BoundBy(calls, m).Some?
    ensures var list, list', p := Run(calls[..|calls| - 1]).lists[m], Run(calls).lists[m], Param(calls);
      if p < 0x1_0000_0000 then Find(list', p) == BoundBy(calls, m)
      else
        && BoundBy(calls, m) == Some(|list|) && |list'| == |list| + 1
        && list'[|list|].id == p % 0x1_0000_0000
        && (Find(list', p % 0x1_0000_0000) == Some(|list|) <==> Find(list, p % 0x1_0000_0000).None?)
  {
    var init, c := calls[..|calls| - 1], calls[|calls| - 1];
    var s := Run(init);
    IdsFit(init, m);
    FindAfterAppend(s.lists[m], Channel(c.param % 0x1_0000_0000, []), c.param);
    FindAfterAppend(s.lists[m], Channel(c.param % 0x1_0000_0000, []), c.param % 0x1_0000_0000);
  }

  // ---------------------------------------------------------------- when two selections share a node

  lemma ListsExtend(calls: seq<Call>, k: nat, m: nat)
    requires k <= |calls| && m < 256
    ensures ListExtends(Run(calls[..k]).lists[m], Run(calls).lists[m])
  {
    ListsOnlyGrow(calls, k);
  }

  /** A parameter from 2^32 on shares no node that was there before. */
  lemma WideSharesNoEarlierNode(calls: seq<Call>, k: nat, m: nat)
    requires 0 < k < |calls| && Selects(calls[..k], m) && Selects(calls, m) && Param(calls) >= 0x1_0000_0000
    ensures BoundBy(calls[..k], m) != BoundBy(calls, m)
  {
    var init := calls[..|calls| - 1];
    SelectsANode(calls[..k], m);
    SelectsANode(calls, m);
    assert init[..k] == calls[..k];
    ListsExtend(init, k, m);
  }

  lemma NarrowSharesTheFirst(calls: seq<Call>, k: nat, m: nat)
    requires 0 < k < |calls| && Selects(calls[..k], m) && Selects(calls, m) && Param(calls) < 0x1_0000_0000
    ensures var p, q := Param(calls[..k]), Param(calls);
      BoundBy(calls[..k], m) == BoundBy(calls, m) <==>
        q == p % 0x1_0000_0000 && (p < 0x1_0000_0000 || Find(Run(calls[..k - 1]).lists[m], q).None?)
  {
    var p, q := Param(calls[..k]), Param(calls);
    var list, list' := Run(calls[..k]).lists[m], Run(calls).lists[m];
    assert calls[..k][..k - 1] == calls[..k - 1];
    SelectsANode(calls[..k], m);
    SelectsANode(calls, m);
    ListsExtend(calls, k, m);
    var i := BoundBy(calls[..k], m).value;
    assert list[i].id == p % 0x1_0000_0000 && list'[i].id == list[i].id;
    if Find(list, q).Some? {
      FoundWhereItWas(list, list', q);
    }
  }

  /**
   Two selections on a minor share a node exactly when the later parameter fits an unsigned int and is what is left of
   the earlier one, and the earlier one either fits too or was the first with what is left of it.
   */
  lemma WhenSelectionsShareANode(calls: seq<Call>, k: nat, m: nat)
    requires 0 < k < |calls| && Selects(calls[..k], m) && Selects(calls, m)
    ensures var p, q := Param(calls[..k]), Param(calls);
      BoundBy(calls[..k], m) == BoundBy(calls, m) <==>
        q < 0x1_0000_0000 && q == p % 0x1_0000_0000 && (p < 0x1_0000_0000 || !SelectedBefore(calls[..k - 1], m, q))
  {
    if Param(calls) < 0x1_0000_0000 {
      SelectsANode(calls, m);
      NarrowSharesTheFirst(calls, k, m);
      IdsAreSelections(calls[..k - 1], m, Param(calls));
    } else {
      WideSharesNoEarlierNode(calls, k, m);
    }
  }

  /** In particular, two selections of the same parameter share a node exactly when it fits an unsigned int. */
  lemma SameNodeIffParameterFits(calls: seq<Call>, k: nat, m: nat)
    requires 0 < k < |calls| && Selects(calls[..k], m) && Selects(calls, m) && Param(calls[..k]) == Param(calls)
    ensures BoundBy(calls[..k], m) == BoundBy(calls, m) <==> Param(calls) < 0x1_0000_0000
  {
    WhenSelectionsShareANode(calls, k, m);
  }

  // ---------------------------------------------------------------- a process alone with its channel

  /** The node that a selection with memory to spare binds file f to. */
  lemma AfterSelection(s: State, f: nat, param: nat)
    requires IsState(s) && f < |s.files| && param > 0 && ShortIds(s.lists[s.files[f].minor])
    ensures var m, s' := s.files[f].minor, DeviceIoctl(s, f, 0x4008_F000, param, true).state;
      && IsState(s') && f < |s'.files| && s'.files[f].minor == m && ShortIds(s'.lists[m]) && s'.files[f].bound.Some?
      && var i := s'.files[f].bound.value;
         if param < 0x1_0000_0000 then
           Find(s'.lists[m], param) == Some(i) && (Find(s.lists[m], param) == Some(i) ==> s'.lists[m] == s.lists[m])
         else s'.lists[m][i].message == []
  {
    FindAfterAppend(s.lists[s.files[f].minor], Channel(param % 0x1_0000_0000, []), param);
  }

  lemma AfterWriting(s: State, f: nat, param: nat, data: seq<Byte>)
    requires IsState(s) && f < |s.files| && s.files[f].bound.Some? && ShortIds(s.lists[s.files[f].minor])
    requires 1 <= |data| <= 128
    ensures var m, i, s' := s.files[f].minor, s.files[f].bound.value, DeviceWrite(s, f, data).state;
      && IsState(s') && s'.files == s.files && ShortIds(s'.lists[m]) && |s'.lists[m]| == |s.lists[m]|
      && s'.lists[m][i].message == data && Find(s'.lists[m], param) == Find(s.lists[m], param)
  {
    FindAfterMessage(s.lists[s.files[f].minor], s.files[f].bound.value, data, param);
  }

  lemma RoundTrip(s: State, f: nat, param: nat, data: seq<Byte>)
    requires IsState(s) && f < |s.files| && param > 0 && 1 <= |data| <= 128 && ShortIds(s.lists[s.files[f].minor])
    ensures var select := Ioctl(f, 0x4008_F000, param, true);
      var s3 := Step(Step(Step(s, select).state, Write(f, data)).state, select).state;
      Step(s3, Read(f, 128)).answer == if param < 0x1_0000_0000 then Data(data) else Failed(EWOULDBLOCK)
  {
    var s1 := DeviceIoctl(s, f, 0x4008_F000, param, true).state;
    var s2 := DeviceWrite(s1, f, data).state;
    AfterSelection(s, f, param);
    AfterWriting(s1, f, param, data);
    AfterSelection(s2, f, param);
  }

  /** The map gives the message back, whatever the parameter. */
  lemma MapRoundTrip(d: Device, f: nat, param: nat, data: seq<Byte>)
    requires IsDevice(d) && f < |d.files| && param > 0 && 1 <= |data| <= 128
    ensures var select := Ioctl(f, 0x4008_F000, param, true);
      var d3 := MapStep(MapStep(MapStep(d, select).device, Write(f, data)).device, select).device;
      MapStep(d3, Read(f, 128)).answer == Data(data)
  {
  }

  lemma FourCalls(calls: seq<Call>, c1: Call, c2: Call, c3: Call, c4: Call)
    ensures LastAnswer(calls + [c1] + [c2] + [c3] + [c4])
         == Step(Step(Step(Step(Run(calls), c1).state, c2).state, c3).state, c4).answer
    ensures Expected(calls + [c1] + [c2] + [c3], c4)
         == MapStep(MapStep(MapStep(MapStep(MapRun(calls), c1).device, c2).device, c3).device, c4).answer
  {
    RunAppend(calls, c1);
    RunAppend(calls + [c1], c2);
    RunAppend(calls + [c1] + [c2], c3);
    RunAppend(calls + [c1] + [c2] + [c3], c4);
  }

  lemma OneCallOpens(d: Device, s: State, c: Call)
    requires IsDevice(d) && IsState(s)
    ensures |MapStep(d, c).device.files| - |d.files| == |Step(s, c).state.files| - |s.files|
  {
  }

  /** The driver and the map open the same files. */
  lemma {:induction false} SameFiles(calls: seq<Call>)
    ensures |MapRun(calls).files| == |Run(calls).files|
  {
    if calls != [] {
      var init := calls[..|calls| - 1];
      SameFiles(init);
      OneCallOpens(MapRun(init), Run(init), calls[|calls| - 1]);
    }
  }

  /**
   After any calls at all, a process that selects a channel, writes, selects the channel again and reads should get its
   message back. It does, exactly when the parameter fits an unsigned int; otherwise it is told that there is none.
   */
  lemma RoundTripIffParameterFits(calls: seq<Call>, f: nat, param: nat, data: seq<Byte>)
    requires f < |Run(calls).files| && param > 0 && 1 <= |data| <= 128
    ensures var select := Ioctl(f, 0x4008_F000, param, true);
      var before := calls + [select] + [Write(f, data)] + [select];
      var answer := LastAnswer(before + [Read(f, 128)]);
      && Expected(before, Read(f, 128)) == Data(data)
      && (answer == Data(data) <==> param < 0x1_0000_0000)
      && (answer == Failed(EWOULDBLOCK) <==> param >= 0x1_0000_0000)
  {
    var select := Ioctl(f, 0x4008_F000, param, true);
    SameFiles(calls);
    IdsFit(calls, Run(calls).files[f].minor);
    RoundTrip(Run(calls), f, param, data);
    MapRoundTrip(MapRun(calls), f, param, data);
    FourCalls(calls, select, Write(f, data), select, Read(f, 128));
  }

  // ---------------------------------------------------------------- the parameters for which the driver is the map

  /** Every parameter of ioctl is one of these. */
  ghost predicate Uses(calls: seq<Call>, params: iset<nat>) {
    forall k :: 0 <= k < |calls| && calls[k].Ioctl? ==> calls[k].param in params
  }

  /** Histories with these parameters are answered as by the map. */
  ghost predicate IsTheMapFor(params: iset<nat>) {
    forall calls: seq<Call>, c: Call :: Uses(calls + [c], params) ==> LastAnswer(calls + [c]) == Expected(calls, c)
  }

  /** A process opens a file, selects a channel, writes to it and selects it again. */
  function SelectWriteSelect(p: nat): seq<Call> {
    [Open(0)] + [Ioctl(0, 0x4008_F000, p, true)] + [Write(0, [7])] + [Ioctl(0, 0x4008_F000, p, true)]
  }

  /** A message written through a parameter from 2^32 on is reported missing. */
  lemma AWideParameterLosesTheMessage(p: nat)
    requires p >= 0x1_0000_0000
    ensures LastAnswer(SelectWriteSelect(p) + [Read(0, 128)]) == Failed(EWOULDBLOCK)
    ensures Expected(SelectWriteSelect(p), Read(0, 128)) == Data([7])
  {
    RunAppend([], Open(0));
    assert [] + [Open(0)] == [Open(0)];
    RoundTripIffParameterFits([Open(0)], 0, p, [7]);
  }

  /** The message written through a parameter comes back for every one below 2^32 and for none from there on. */
  lemma TheMessageComesBackBelow(p: nat)
    requires p > 0
    ensures LastAnswer(SelectWriteSelect(p) + [Read(0, 128)]) == Data([7]) <==> p < 4294967296
  {
    RunAppend([], Open(0));
    assert [] + [Open(0)] == [Open(0)];
    RoundTripIffParameterFits([Open(0)], 0, p, [7]);
  }

  lemma UsesOneParameter(params: iset<nat>, p: nat)
    requires p in params
    ensures Uses(SelectWriteSelect(p) + [Read(0, 128)], params)
  {
    var select := Ioctl(0, 0x4008_F000, p, true);
    assert SelectWriteSelect(p) + [Read(0, 128)] == [Open(0), select, Write(0, [7]), select, Read(0, 128)];
  }

  lemma AWideParameterBreaksTheMap(params: iset<nat>, p: nat)
    requires p in params && p >= 0x1_0000_0000
    ensures !IsTheMapFor(params)
  {
    AWideParameterLosesTheMessage(p);
    UsesOneParameter(params, p);
  }

  /**
   The driver is a map from (minor, channel) to a message for exactly those sets of parameters that all fit an unsigned
   int: with them every history is answered as by the map, and with any other parameter some history is not.
   */
  lemma IsTheMapIffParametersFit(params: iset<nat>)
    ensures IsTheMapFor(params) <==> forall p: nat :: p in params ==> p < 4294967296
  {
    if forall p: nat :: p in params ==> p < 0x1_0000_0000 {
      forall calls: seq<Call>, c: Call | Uses(calls + [c], params)
        ensures LastAnswer(calls + [c]) == Expected(calls, c) {
        AnswersFollowTheMap(calls, c);
      }
    } else {
      var p: nat :| p in params && p >= 0x1_0000_0000;
      AWideParameterBreaksTheMap(params, p);
    }
  }

  // ---------------------------------------------------------------- a channel reached through another

  lemma Alias(s: State, f: nat, g: nat, p: nat, data: seq<Byte>)
    requires IsState(s) && f < |s.files| && g < |s.files| && f != g && s.files[f].minor == s.files[g].minor
    requires var list := s.lists[s.files[f].minor]; ShortIds(list) && Find(list, p % 0x1_0000_0000).None?
    requires p >= 0x1_0000_0000 && p % 0x1_0000_0000 > 0 && 1 <= |data| <= 128
    ensures var select, again := Ioctl(f, 0x4008_F000, p, true), Ioctl(g, 0x4008_F000, p % 0x1_0000_0000, true);
      var s3 := Step(Step(Step(s, select).state, Write(f, data)).state, again).state;
      Step(s3, Read(g, 128)).answer == Data(data)
  {
    var m, q := s.files[f].minor, p % 0x1_0000_0000;
    var s1 := DeviceIoctl(s, f, 0x4008_F000, p, true).state;
    var s2 := DeviceWrite(s1, f, data).state;
    FindAfterAppend(s.lists[m], Channel(q, []), p);
    FindAfterAppend(s.lists[m], Channel(q, []), q);
    FindAfterMessage(s1.lists[m], |s.lists[m]|, data, q);
    assert s2.files[g].minor == m && Find(s2.lists[m], q) == Some(|s.lists[m]|);
  }

  /**
   What is written through a parameter from 2^32 on is read, through another file of the minor, on the channel of its
   low 32 bits, if no selection on the minor had those before.
   */
  lemma AliasedRead(calls: seq<Call>, f: nat, g: nat, p: nat, data: seq<Byte>)
    requires f < |Run(calls).files| && g < |Run(calls).files| && f != g
      && Run(calls).files[f].minor == Run(calls).files[g].minor
    requires !SelectedBefore(calls, Run(calls).files[f].minor, p % 0x1_0000_0000)
    requires p >= 0x1_0000_0000 && p % 0x1_0000_0000 > 0 && 1 <= |data| <= 128
    ensures LastAnswer(calls + [Ioctl(f, 0x4008_F000, p, true)] + [Write(f, data)]
        + [Ioctl(g, 0x4008_F000, p % 0x1_0000_0000, true)] + [Read(g, 128)]) == Data(data)
  {
    var select, again := Ioctl(f, 0x4008_F000, p, true), Ioctl(g, 0x4008_F000, p % 0x1_0000_0000, true);
    IdsFit(calls, Run(calls).files[f].minor);
    IdsAreSelections(calls, Run(calls).files[f].minor, p % 0x1_0000_0000);
    Alias(Run(calls), f, g, p, data);
    FourCalls(calls, select, Write(f, data), again, Read(g, 128));
  }

  /** One process writes to a channel of minor 0, and another selects a channel of that minor. */
  function WriteThenSelect(p: nat, q: nat): seq<Call> {
    [Open(0)] + [Open(0)] + [Ioctl(0, 0x4008_F000, p, true)] + [Write(0, [7])] + [Ioctl(1, 0x4008_F000, q,
      true)]
  }

  lemma TwoFiles()
    ensures MapRun([Open(0)] + [Open(0)]) == Device([MapFile(0, None), MapFile(0, None)], map[])
    ensures Run([Open(0)] + [Open(0)]) == Init().(files := [OpenFile(0, None), OpenFile(0, None)])
  {
    RunAppend([], Open(0));
    assert [] + [Open(0)] == [Open(0)];
    RunAppend([Open(0)], Open(0));
  }

  /** The map keeps two channels apart. */
  lemma MapKeepsApart(p: nat, q: nat)
    requires p != q && p > 0 && q > 0
    ensures Expected(WriteThenSelect(p, q), Read(1, 128)) == Failed(EWOULDBLOCK)
  {
    var calls2 := [Open(0)] + [Open(0)];
    var calls3 := calls2 + [Ioctl(0, 0x4008_F000, p, true)];
    var calls4 := calls3 + [Write(0, [7])];
    TwoFiles();
    RunAppend(calls2, Ioctl(0, 0x4008_F000, p, true));
    RunAppend(calls3, Write(0, [7]));
    RunAppend(calls4, Ioctl(1, 0x4008_F000, q, true));
    assert MapRun(calls4).messages == map[Key(0, p) := [7]];
  }

  lemma WideWriteIsRead(p: nat, q: nat)
    requires p >= 0x1_0000_0000 && q == p % 0x1_0000_0000 && q > 0
    ensures LastAnswer(WriteThenSelect(p, q) + [Read(1, 128)]) == Data([7])
  {
    TwoFiles();
    IdsAreSelections([Open(0)] + [Open(0)], 0, q);
    AliasedRead([Open(0)] + [Open(0)], 0, 1, p, [7]);
  }

  /** A reader of channel 5, to which nothing was written, gets the message of the channel 2^32 + 5. */
  lemma AWideParameterReachesAnotherChannel()
    ensures LastAnswer(WriteThenSelect(0x1_0000_0000 + 5, 5) + [Read(1, 128)]) == Data([7])
    ensures Expected(WriteThenSelect(0x1_0000_0000 + 5, 5), Read(1, 128)) == Failed(EWOULDBLOCK)
  {
    WideWriteIsRead(0x1_0000_0000 + 5, 5);
    MapKeepsApart(0x1_0000_0000 + 5, 5);
  }
}
