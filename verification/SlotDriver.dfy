/** The message slot driver on the heap, as a kernel module that owns linked lists of nodes. */
module SlotDriver {
  import opened Options
  import opened SlotMap
  import opened SlotSpec

  /** A node; `home` and `slot` say in which minor's list it is and where. */
  class Node {
    var channelId: nat
    const channel: array<Byte>
    var msgLen: nat
    var next: Node?
    ghost const home: nat
    ghost const slot: nat

    /** Memory from `kmalloc` and what the driver assigns to it: of the parameter only 32 bits are kept. */
    constructor (ghost home: nat, ghost slot: nat, param: nat)
      ensures IsNode(this, null, Channel(param % 0x1_0000_0000, [])) && fresh(channel) && this.home == home
        && this.slot == slot
    {
      channel := new Byte[BUF_LEN];
      this.home, this.slot := home, slot;
      channelId := param % ID_SPAN;
      next := null;
      msgLen := 0;
    }
  }

  /** A `struct file`; `index` is its place in the order of opening. */
  class File {
    const minor: nat
    var privateData: Node?
    ghost const index: nat

    constructor (minor: nat, ghost index: nat)
      ensures this.minor == minor && this.index == index && privateData == null
    {
      this.minor, this.index, privateData := minor, index, null;
    }
  }

  /** The `errno` numbers of Linux. */
  function Number(e: Errno): int {
    match e
    case ENXIO => 6
    case EBADF => 9
    case EWOULDBLOCK => 11
    case ENOMEM => 12
    case EINVAL => 22
    case ENOSPC => 28
    case EMSGSIZE => 90
  }

  /** What a call returns for an answer. */
  function Code(a: Answer): int {
    match a
    case Failed(e) => -Number(e)
    case Done(n) => n
    case Data(message) => |message|
  }

  /** The node at position i of minor m, or null. */
  ghost function At(lists: seq<seq<Node>>, m: nat, i: int): Node? {
    if m < |lists| && 0 <= i < |lists[m]| then lists[m][i] else null
  }

  /** The list of minor m with a node more. */
  ghost function Longer(lists: seq<seq<Node>>, m: nat, node: Node): seq<seq<Node>>
    requires m < |lists|
  {
    lists[m := lists[m] + [node]]
  }

  /** Node n holds channel c, and `next` follows it. */
  ghost predicate IsNode(n: Node, next: Node?, c: Channel)
    reads n, n.channel
  {
    && n.next == next && n.channelId == c.id
    && n.channel.Length == 128 && n.msgLen <= 128 && n.channel[..n.msgLen] == c.message
  }

  /** Each node is at its own place in one list, and has a buffer of its own. */
  ghost predicate Placed(lists: seq<seq<Node>>, owner: map<array<Byte>, Node>, live: set<Node>, Repr: set<object>,
    m: nat, i: nat)
    requires m < |lists| && i < |lists[m]|
  {
    var n := lists[m][i];
    && n.home == m && n.slot == i
    && n in live && n in Repr && n.channel in Repr
    && n.channel in owner && owner[n.channel] == n
  }

  /** The live nodes are those of the lists. */
  ghost predicate Shape(lists: seq<seq<Node>>, owner: map<array<Byte>, Node>, live: set<Node>, Repr: set<object>) {
    && |lists| == 256
    && (forall m, i :: 0 <= m < 256 && 0 <= i < |lists[m]| ==> Placed(lists, owner, live, Repr, m, i))
    && (forall n :: n in live ==> n.home < 256 && n.slot < |lists[n.home]| && lists[n.home][n.slot] == n)
  }

  lemma ShapeInside(lists: seq<seq<Node>>, owner: map<array<Byte>, Node>, live: set<Node>, Repr: set<object>,
    Repr': set<object>)
    requires Shape(lists, owner, live, Repr) && Repr <= Repr'
    ensures Shape(lists, owner, live, Repr')
  {
    forall m, i | 0 <= m < 256 && 0 <= i < |lists[m]| ensures Placed(lists, owner, live, Repr', m, i) {
      assert Placed(lists, owner, live, Repr, m, i);
    }
  }

  lemma ShapeAppend(lists: seq<seq<Node>>, owner: map<array<Byte>, Node>, live: set<Node>, Repr: set<object>, m: nat,
    node: Node)
    requires Shape(lists, owner, live, Repr) && m < 256 && node.home == m && node.slot == |lists[m]|
    requires node !in Repr && node.channel !in Repr
    ensures Shape(Longer(lists, m, node), owner[node.channel := node], live + {node}, Repr + {node, node.channel})
  {
    var lists', owner', live', Repr' :=
      Longer(lists, m, node), owner[node.channel := node], live + {node}, Repr + {node, node.channel};
    forall n: nat, i: nat | n < 256 && i < |lists'[n]| ensures Placed(lists', owner', live', Repr', n, i) {
      assert i < |lists[n]| ==> Placed(lists, owner, live, Repr, n, i);
    }
  }

  class Driver {
    const devices: array<Node?>
    ghost var lists: seq<seq<Node>>
    ghost var files: seq<File>
    ghost var owner: map<array<Byte>, Node>
    ghost var live: set<Node>
    ghost var view: State
    ghost var Repr: set<object>

    ghost predicate NodeOk(m: nat, i: nat)
      requires m < |lists| == |view.lists| && i < |lists[m]| == |view.lists[m]|
      reads this, lists[m][i], lists[m][i].channel
    {
      IsNode(lists[m][i], At(lists, m, i + 1), view.lists[m][i])
    }

    ghost predicate FileOk(f: nat)
      requires f < |files| == |view.files|
      reads this, files[f]
    {
      && files[f].index == f && files[f].minor == view.files[f].minor < |lists|
      && match view.files[f].bound
         case None => files[f].privateData == null
         case Some(i) => i < |lists[files[f].minor]| && files[f].privateData == lists[files[f].minor][i]
    }

    /** The heap holds what `view` says, and the live nodes are those of the lists. */
    ghost predicate Valid()
      reads this, Repr
    {
      && this in Repr && devices in Repr
      && devices.Length == |lists| == |view.lists| == 256 && IsState(view)
      && Shape(lists, owner, live, Repr)
      && (forall m :: 0 <= m < 256 ==> |lists[m]| == |view.lists[m]| && devices[m] == At(lists, m, 0))
      && (forall m, i :: 0 <= m < 256 && 0 <= i < |lists[m]| ==>
        Placed(lists, owner, live, Repr, m, i) && NodeOk(m, i))
      && |files| == |view.files|
      && (forall f :: 0 <= f < |files| ==> files[f] in Repr)
      && (forall f :: 0 <= f < |files| ==> FileOk(f))
    }

    ghost predicate IsOpen(file: File)
      reads this
    {
      file.index < |files| && files[file.index] == file
    }

    /** Where the file of a call points. */
    lemma OpenFileOk(file: File)
      requires Valid() && IsOpen(file)
      ensures file in Repr && FileOk(file.index) && file.minor < 256
      ensures var bound := view.files[file.index].bound;
        if bound.None? then file.privateData == null else
        && bound.value < |lists[file.minor]| && NodeOk(file.minor, bound.value)
        && Placed(lists, owner, live, Repr, file.minor, bound.value)
          && file.privateData == lists[file.minor][bound.value]
    {
    }

    /** The module is loaded: the array of devices is static, so it is all null. */
    constructor ()
      ensures Valid() && fresh(Repr) && view == Init()
    {
      devices := new Node?[256](_ => null);
      lists := seq(256, _ => []);
      files, owner, live, view := [], map[], {}, Init();
      new;
      Repr := {this, devices};
    }

    method Open(minor: nat) returns (file: File)
      requires Valid() && minor < 256
      modifies this
      ensures Valid() && fresh(Repr - old(Repr))
      ensures view == Step(old(view), SlotSpec.Open(minor)).state && lists == old(lists) && live == old(live)
      ensures files == old(files) + [file] && file.index == |old(files)| && fresh(file)
    {
      file := new File(minor, |files|);
      files := files + [file];
      view := Step(view, SlotSpec.Open(minor)).state;
      ShapeInside(lists, owner, live, Repr, Repr + {file});
      Repr := Repr + {file};
      forall m, i | 0 <= m < 256 && 0 <= i < |lists[m]| ensures NodeOk(m, i) {
        assert old(NodeOk(m, i));
      }
      forall f | 0 <= f < |files| ensures FileOk(f) {
        assert f < |old(files)| ==> old(FileOk(f));
      }
    }

    /** The copy loop of a write, and the new length. */
    method StoreMessage(node: Node, buffer: array<Byte>)
      requires buffer != node.channel && node.channel.Length == 128 && 1 <= buffer.Length <= 128
      modifies node`msgLen, node.channel
      ensures node.msgLen == buffer.Length && node.channel[..node.msgLen] == buffer[..]
    {
      var i := 0;
      while i < buffer.Length && i < BUF_LEN
        modifies node.channel
        invariant 0 <= i <= buffer.Length && node.channel[..i] == buffer[..i]
      {
        node.channel[i] := buffer[i];
        i := i + 1;
      }
      node.msgLen := i;
    }

    method Write(file: File, buffer: array<Byte>) returns (r: int)
      requires Valid() && IsOpen(file) && buffer !in Repr
      modifies Repr
      ensures Valid() && Repr == old(Repr) && lists == old(lists) && files == old(files) && live == old(live)
      ensures var o := Step(old(view), SlotSpec.Write(file.index, buffer[..])); view == o.state && r == Code(o.answer)
      ensures file.privateData == old(file.privateData)
      ensures r == if file.privateData == null then -22
                   else if buffer.Length == 0 || buffer.Length > 128 then -90 else buffer.Length
      ensures r > 0 ==>
        && file.privateData.msgLen == r && file.privateData.channel.Length == 128
        && file.privateData.channel[..r] == buffer[..]
    {
      OpenFileOk(file);
      var node := file.privateData;
      if node == null {
        return -Number(EINVAL);
      }
      if buffer.Length == 0 || buffer.Length > 128 {
        return -Number(EMSGSIZE);
      }
      StoreMessage(node, buffer);
      view := SetMessage(view, file.minor, node.slot, buffer[..]);
      forall m, i | 0 <= m < 256 && 0 <= i < |lists[m]| ensures NodeOk(m, i) {
        assert old(NodeOk(m, i));
        assert lists[m][i] == node || lists[m][i].channel != node.channel;
      }
      forall f | 0 <= f < |files| ensures FileOk(f) {
        assert old(FileOk(f));
      }
      return buffer.Length;
    }

    method Read(file: File, buffer: array<Byte>) returns (r: int)
      requires Valid() && IsOpen(file) && buffer !in Repr
      modifies buffer
      ensures Valid()
      ensures var answer := Step(view, SlotSpec.Read(file.index, buffer.Length)).answer;
        && r == Code(answer)
        && buffer[..] == if answer.Data? then answer.message + old(buffer[|answer.message|..]) else old(buffer[..])
      ensures var node := file.privateData;
        r == if node == null then -22
             else if node.msgLen == 0 then -11 else if buffer.Length < node.msgLen then -28 else node.msgLen
      ensures r > 0 ==>
        && r <= buffer.Length && r <= file.privateData.channel.Length
        && buffer[..r] == file.privateData.channel[..r]
    {
      OpenFileOk(file);
      var node := file.privateData;
      if node == null {
        return -Number(EINVAL);
      }
      if node.msgLen == 0 {
        return -Number(EWOULDBLOCK);
      }
      if buffer.Length < node.msgLen {
        return -Number(ENOSPC);
      }
      var i := 0;
      while i < node.msgLen && i < BUF_LEN
        invariant 0 <= i <= node.msgLen
        invariant buffer[..i] == node.channel[..i] && forall j :: i <= j < buffer.Length ==> buffer[j] == old(buffer[j])
      {
        buffer[i] := node.channel[i];
        i := i + 1;
      }
      return i;
    }

    /** Hangs a node on the last node of a list, or on the device when there is none. */
    method Link(m: nat, last: Node?, node: Node)
      requires m < devices.Length
      modifies devices, if last == null then {} else {last}
      ensures last == null ==> devices[m] == node && forall n :: 0 <= n < devices.Length && n != m ==>
        devices[n] == old(devices[n])
      ensures last != null ==>
        last.next == node && last.channelId == old(last.channelId) && last.msgLen == old(last.msgLen)
      ensures last != null ==> forall n :: 0 <= n < devices.Length ==> devices[n] == old(devices[n])
    {
      if last == null {
        devices[m] := node;
      } else {
        last.next := node;
      }
    }

    /** Once the heap has the longer list, the books are brought up to it. */
    ghost method Record(m: nat, node: Node, param: nat)
      requires m < 256 && Shape(lists, owner, live, Repr) && |lists| == |view.lists| == devices.Length == 256
        && IsState(view)
      requires this in Repr && devices in Repr
      requires node !in Repr && node.channel !in Repr && node.home == m && node.slot == |lists[m]|
      requires forall n :: 0 <= n < 256 ==> |lists[n]| == |view.lists[n]|
      requires forall n :: 0 <= n < 256 ==> devices[n] == At(Longer(lists, m, node), n, 0)
      requires forall n, i :: 0 <= n < 256 && 0 <= i < |lists[n]| ==>
        IsNode(lists[n][i], At(Longer(lists, m, node), n, i + 1), view.lists[n][i])
      requires IsNode(node, null, Channel(param % 0x1_0000_0000, []))
      requires |files| == |view.files| && (forall f :: 0 <= f < |files| ==> files[f] in Repr)
        && (forall f :: 0 <= f < |files| ==> FileOk(f))
      modifies this
      ensures Valid() && Repr == old(Repr) + {node, node.channel} && files == old(files)
      ensures view == Append(old(view), m, param) && lists == old(Longer(lists, m, node)) && live == old(live) + {node}
    {
      ShapeAppend(lists, owner, live, Repr, m, node);
      lists := Longer(lists, m, node);
      owner := owner[node.channel := node];
      live := live + {node};
      view := Append(view, m, param);
      Repr := Repr + {node, node.channel};
      forall f | 0 <= f < |files| ensures FileOk(f) {
        assert old(FileOk(f));
      }
      forall n, i | 0 <= n < 256 && 0 <= i < |lists[n]| ensures NodeOk(n, i) {
        assert i < |old(lists[n])| ==> view.lists[n][i] == old(view.lists[n][i]);
      }
    }

    /** A new node at the tail of a list. */
    method AppendNode(m: nat, last: Node?, param: nat) returns (node: Node)
      requires Valid() && m < 256 && last == At(lists, m, |lists[m]| - 1)
      modifies Repr
      ensures Valid() && Repr == old(Repr) + {node, node.channel} && files == old(files)
      ensures fresh(node) && fresh(node.channel)
      ensures view == Append(old(view), m, param)
      ensures lists == Longer(old(lists), m, node) && live == old(live) + {node} && node.home == m
        && node.slot == |old(lists[m])|
    {
      assert last != null ==> Placed(lists, owner, live, Repr, m, |lists[m]| - 1);
      node := new Node(m, |lists[m]|, param);
      Link(m, last, node);
      forall n, i | 0 <= n < 256 && 0 <= i < |lists[n]|
        ensures IsNode(lists[n][i], At(Longer(lists, m, node), n, i + 1), view.lists[n][i])
      {
        assert old(NodeOk(n, i)) && Placed(lists, owner, live, Repr, n, i);
        assert last != null ==> Placed(lists, owner, live, Repr, m, |lists[m]| - 1);
      }
      forall f | 0 <= f < |files| ensures FileOk(f) {
        assert old(FileOk(f));
      }
      Record(m, node, param);
    }

    /** Points a file to a node of its minor's list. */
    method Select(file: File, node: Node)
      requires Valid() && IsOpen(file) && node in live && node.home == file.minor
      modifies Repr
      ensures Valid() && Repr == old(Repr) && lists == old(lists) && files == old(files) && live == old(live)
      ensures view == Bind(old(view), file.index, node.slot)
    {
      OpenFileOk(file);
      file.privateData := node;
      view := Bind(view, file.index, node.slot);
      forall n, i | 0 <= n < 256 && 0 <= i < |lists[n]| ensures NodeOk(n, i) {
        assert old(NodeOk(n, i));
      }
      forall f | 0 <= f < |files| ensures FileOk(f) {
        assert old(FileOk(f));
      }
    }

    /** No node of the minor has this id. */
    ghost predicate HasNoNode(m: nat, id: nat)
      requires m < |lists|
      reads this, lists[m]
    {
      forall i :: 0 <= i < |lists[m]| ==> lists[m][i].channelId != id
    }

    lemma NodesOf(m: nat, id: nat)
      requires Valid() && m < 256
      ensures HasNoNode(m, id) <==> Find(view.lists[m], id).None?
    {
      forall i | 0 <= i < |lists[m]| ensures lists[m][i].channelId == view.lists[m][i].id {
        assert NodeOk(m, i);
      }
    }

    /** Finds the node of a channel or appends one; null means that there was no memory for it. */
    method FindOrAppend(minor: nat, param: nat, memory: bool) returns (curr: Node?)
      requires Valid() && minor < 256
      modifies Repr
      ensures Valid() && old(Repr) <= Repr && fresh(Repr - old(Repr)) && files == old(files)
      ensures var found := Find(old(view.lists[minor]), param);
        if found.Some? || !memory then
          && view == old(view) && lists == old(lists) && live == old(live)
          && curr == if found.Some? then lists[minor][found.value] else null
        else
          && view == Append(old(view), minor, param) && old(live) <= live
          && curr != null && fresh(curr) && lists == Longer(old(lists), minor, curr)
            && curr == lists[minor][|old(lists[minor])|]
    {
      curr := devices[minor];
      if curr == null {
        if !memory {
          return null;
        }
        curr := AppendNode(minor, null, param);
      } else {
        assert NodeOk(minor, 0);
        var next := curr.next;
        ghost var k := 0;
        while param != curr.channelId
          invariant Valid() && view == old(view) && lists == old(lists) && files == old(files)
          invariant Repr == old(Repr) && live == old(live)
          invariant k < |lists[minor]| && curr == lists[minor][k] && next == At(lists, minor, k + 1)
          invariant curr.channelId == view.lists[minor][k].id
          invariant forall i :: 0 <= i < k ==> view.lists[minor][i].id != param
          decreases |lists[minor]| - k
        {
          assert NodeOk(minor, k);
          if next == null {
            if !memory {
              return null;
            }
            curr := AppendNode(minor, curr, param);
            break;
          }
          curr := next;
          k := k + 1;
          assert NodeOk(minor, k);
          next := curr.next;
        }
      }
    }

    method Ioctl(file: File, command: nat, param: nat, memory: bool) returns (r: int)
      requires Valid() && IsOpen(file)
      modifies Repr
      ensures Valid() && fresh(Repr - old(Repr)) && files == old(files)
      ensures old(live) <= live && forall m :: 0 <= m < 256 ==> old(lists[m]) <= lists[m]
      ensures r < 0 ==> lists == old(lists) && live == old(live)
      ensures var o := Step(old(view), SlotSpec.Ioctl(file.index, command, param, memory));
        view == o.state && r == Code(o.answer)
      ensures file.minor < |old(lists)|
      ensures r == if command != 0x4008_F000 || param == 0 then -22
                   else if !memory && old(HasNoNode(file.minor, param)) then -12 else 0
    {
      OpenFileOk(file);
      NodesOf(file.minor, param);
      if command != MSG_SLOT_CHANNEL || param == 0 {
        return -Number(EINVAL);
      }
      var curr := FindOrAppend(file.minor, param, memory);
      if curr == null {
        return -Number(ENOMEM);
      }
      assert Placed(lists, owner, live, Repr, file.minor,
        if Find(old(view.lists[file.minor]), param).Some? then Find(old(view.lists[file.minor]), param).value
          else |old(lists[file.minor])|);
      Select(file, curr);
      return 0;
    }

    // ---------------------------------------------------------------- unloading the module

    /** `kfree`: of a live node only, which is then no longer live. */
    method Free(node: Node)
      requires node in live
      modifies this`live
      ensures live == old(live) - {node}
    {
      live := live - {node};
    }

    /** Loads from a live node only. */
    method NextOf(node: Node) returns (next: Node?)
      requires node in live
      ensures next == node.next
    {
      next := node.next;
    }

    /** Unloading frees every node once, and looks into none that it has freed. */
    method Exit() returns (freed: seq<Node>)
      requires Valid()
      modifies this`live
      ensures live == {}
      ensures forall a, b :: 0 <= a < b < |freed| ==> freed[a] != freed[b]
      ensures forall n :: n in freed <==> n in old(live)
    {
      freed := [];
      for i := 0 to 256
        invariant forall n :: n in live <==> n in old(live) && n.home >= i
        invariant forall n :: n in freed <==> n in old(live) && n.home < i
        invariant forall a, b :: 0 <= a < b < |freed| ==> freed[a] != freed[b]
      {
        var next := devices[i];
        ghost var k := 0;
        while next != null
          invariant k <= |lists[i]| && next == At(lists, i, k)
          invariant forall n :: n in live <==> n in old(live) && (n.home > i || (n.home == i && n.slot >= k))
          invariant forall n :: n in freed <==> n in old(live) && (n.home < i || (n.home == i && n.slot < k))
          invariant forall a, b :: 0 <= a < b < |freed| ==> freed[a] != freed[b]
          decreases |lists[i]| - k
        {
          assert Placed(lists, owner, old(live), Repr, i, k) && NodeOk(i, k);
          var curr := next;
          next := NextOf(curr);
          Free(curr);
          freed := freed + [curr];
          k := k + 1;
        }
      }
    }
  }

  /** One call more, as the lists and as the map have it. */
  lemma OneMoreCall(calls: seq<Call>, c: Call)
    ensures Run(calls + [c]) == Step(Run(calls), c).state && LastAnswer(calls + [c]) == Step(Run(calls), c).answer
    ensures Narrow(calls + [c]) ==> Step(Run(calls), c).answer == Expected(calls, c)
  {
    RunAppend(calls, c);
    if Narrow(calls + [c]) {
      AnswersFollowTheMap(calls, c);
    }
  }

  /** With parameters that fit, a file of the map is on its minor and has selected what its node is for. */
  lemma FilesByTheMap(calls: seq<Call>, c: Call, f: nat)
    requires f < |Run(calls).files|
    ensures Narrow(calls + [c]) ==>
      && f < |MapRun(calls).files|
      && MapRun(calls).files[f].minor == Run(calls).files[f].minor
      && (MapRun(calls).files[f].channel.None? <==> Run(calls).files[f].bound.None?)
  {
    if Narrow(calls + [c]) {
      assert forall k :: 0 <= k < |calls| ==> (calls + [c])[k] == calls[k];
      NarrowCallsAgree(calls);
    }
  }

  lemma NoMemoryInTheMap(d: Device, f: nat, command: nat, param: nat, memory: bool)
    requires IsDevice(d) && f < |d.files|
    ensures Code(MapStep(d, Ioctl(f, command, param, memory)).answer) == -12 <==>
      command == 0x4008_F000 && param != 0 && !memory && Key(d.files[f].minor, param) !in d.messages
  {
  }

  lemma IoctlByTheMap(calls: seq<Call>, f: nat, command: nat, param: nat, memory: bool)
    requires f < |Run(calls).files|
    ensures var c := Ioctl(f, command, param, memory);
      Narrow(calls + [c]) ==> (Code(LastAnswer(calls + [c])) == -12 <==>
        && command == 0x4008_F000 && param != 0 && !memory
        && Key(Run(calls).files[f].minor, param) !in MapRun(calls).messages)
  {
    var c := Ioctl(f, command, param, memory);
    FilesByTheMap(calls, c, f);
    OneMoreCall(calls, c);
    if Narrow(calls + [c]) {
      NoMemoryInTheMap(MapRun(calls), f, command, param, memory);
    }
  }

  lemma ReadWithoutChannel(calls: seq<Call>, f: nat, length: nat)
    requires f < |Run(calls).files| && Run(calls).files[f].bound.None?
    ensures Code(LastAnswer(calls + [Read(f, length)])) == -22
  {
    RunAppend(calls, Read(f, length));
  }

  lemma ReadByTheMap(calls: seq<Call>, f: nat, length: nat)
    requires f < |Run(calls).files|
    ensures Narrow(calls + [Read(f, length)]) ==> f < |MapRun(calls).files|
    ensures Narrow(calls + [Read(f, length)]) ==>
      Code(LastAnswer(calls + [Read(f, length)])) ==
        var of := MapRun(calls).files[f];
        if of.channel.None? then -22 else
        match LastWritten(calls, Key(of.minor, of.channel.value))
        case None => -11
        case Some(message) => if length < |message| then -28 else |message|
  {
    FilesByTheMap(calls, Read(f, length), f);
    if Narrow(calls + [Read(f, length)]) {
      assert forall k :: 0 <= k < |calls| ==> (calls + [Read(f, length)])[k] == calls[k];
      if MapRun(calls).files[f].channel.Some? {
        ReadReturnsTheLastWrite(calls, f, length);
      } else {
        ReadWithoutChannel(calls, f, length);
      }
    }
  }

  /**
   The operations that the kernel calls; `calls` are those it has made, in whatever order the processes ask for them.
   */
  class FileOperations {
    const driver: Driver
    ghost var calls: seq<Call>

    /** The driver holds the state that the calls so far lead to. */
    ghost predicate Serving()
      reads this, driver, driver.Repr
    {
      driver.Valid() && this !in driver.Repr && driver.view == Run(calls)
    }

    constructor ()
      ensures Serving() && calls == [] && fresh(driver) && fresh(driver.Repr)
    {
      driver := new Driver();
      calls := [];
    }

    method Open(minor: nat) returns (file: File)
      requires Serving() && minor < 256
      modifies this, driver
      ensures Serving() && calls == old(calls) + [SlotSpec.Open(minor)] && fresh(driver.Repr - old(driver.Repr))
      ensures driver.IsOpen(file) && driver.files == old(driver.files) + [file]
    {
      OneMoreCall(calls, SlotSpec.Open(minor));
      file := driver.Open(minor);
      calls := calls + [SlotSpec.Open(minor)];
    }

    method Ioctl(file: File, command: nat, param: nat, memory: bool) returns (r: int)
      requires Serving() && driver.IsOpen(file)
      modifies this, driver, driver.Repr
      ensures Serving() && calls == old(calls) + [SlotSpec.Ioctl(file.index, command, param, memory)]
      ensures r == Code(LastAnswer(calls))
      ensures Narrow(calls) ==> r == Code(Expected(old(calls), SlotSpec.Ioctl(file.index, command, param, memory)))
      ensures file.minor < |old(driver.lists)|
      ensures r == if command != 0x4008_F000 || param == 0 then -22
                   else if !memory && old(driver.HasNoNode(file.minor, param)) then -12 else 0
      ensures Narrow(calls) ==> (r == -12 <==>
        && command == 0x4008_F000 && param != 0 && !memory
        && Key(file.minor, param) !in MapRun(old(calls)).messages)
      ensures fresh(driver.Repr - old(driver.Repr)) && driver.files == old(driver.files)
    {
      OneMoreCall(calls, SlotSpec.Ioctl(file.index, command, param, memory));
      IoctlByTheMap(calls, file.index, command, param, memory);
      driver.OpenFileOk(file);
      r := driver.Ioctl(file, command, param, memory);
      calls := calls + [SlotSpec.Ioctl(file.index, command, param, memory)];
    }

    method Write(file: File, buffer: array<Byte>) returns (r: int)
      requires Serving() && driver.IsOpen(file) && buffer !in driver.Repr
      modifies this, driver, driver.Repr
      ensures Serving() && calls == old(calls) + [SlotSpec.Write(file.index, buffer[..])]
      ensures r == Code(LastAnswer(calls))
      ensures Narrow(calls) ==> r == Code(Expected(old(calls), SlotSpec.Write(file.index, buffer[..])))
      ensures r == if file.privateData == null then -22
                   else if buffer.Length == 0 || buffer.Length > 128 then -90 else buffer.Length
      ensures Narrow(calls) ==>
        && file.index < |MapRun(old(calls)).files|
        && (r == -22 <==> MapRun(old(calls)).files[file.index].channel.None?)
      ensures driver.Repr == old(driver.Repr) && driver.files == old(driver.files)
    {
      OneMoreCall(calls, SlotSpec.Write(file.index, buffer[..]));
      FilesByTheMap(calls, SlotSpec.Write(file.index, buffer[..]), file.index);
      r := driver.Write(file, buffer);
      calls := calls + [SlotSpec.Write(file.index, buffer[..])];
    }

    /** A read that returns a message has put it at the start of the buffer. */
    method Read(file: File, buffer: array<Byte>) returns (r: int)
      requires Serving() && driver.IsOpen(file) && buffer !in driver.Repr
      modifies this, buffer
      ensures Serving() && calls == old(calls) + [SlotSpec.Read(file.index, buffer.Length)]
      ensures r == Code(LastAnswer(calls))
      ensures LastAnswer(calls).Data? ==>
        |LastAnswer(calls).message| <= buffer.Length
          && buffer[..|LastAnswer(calls).message|] == LastAnswer(calls).message
      ensures Narrow(calls) ==> LastAnswer(calls) == Expected(old(calls), SlotSpec.Read(file.index, buffer.Length))
      ensures var node := file.privateData;
        r == if node == null then -22
             else if node.msgLen == 0 then -11 else if buffer.Length < node.msgLen then -28 else node.msgLen
      ensures Narrow(calls) ==> file.index < |MapRun(old(calls)).files|
      ensures Narrow(calls) ==>
        var of := MapRun(old(calls)).files[file.index];
        r == if of.channel.None? then -22 else
             match LastWritten(old(calls), Key(of.minor, of.channel.value))
             case None => -11
             case Some(message) => if buffer.Length < |message| then -28 else |message|
    {
      OneMoreCall(calls, SlotSpec.Read(file.index, buffer.Length));
      ReadByTheMap(calls, file.index, buffer.Length);
      r := driver.Read(file, buffer);
      calls := calls + [SlotSpec.Read(file.index, buffer.Length)];
    }
  }
}
