/**
 Clipboard synchronisation between two machines (src/clipboard.rs): the owner marker written with every
 received clipboard keeps that content from being sent back. The operating system's clipboard is a list of
 items; compression and the wire format are an arbitrary `decode` from sent to received items.
 */
module ClipboardSync {
  import opened Common

  datatype Item =
    | NoData
    | Text(text: string)
    | Rich(text: string)
    | Image(bytes: seq<bv8>)
    | FileUrl(urls: seq<string>)
    | Special(name: string, payload: seq<bv8>)

  const OWNER_FORMAT := "dyn.com.rustdesk.owner"
  const EXCEL_FORMAT := "XML Spreadsheet"

  datatype Side = Host | Client

  /** 01 marks the host, 10 the client. */
  function OwnerData(side: Side): seq<bv8> {
    match side case Host => [1] case Client => [2]
  }

  /** Each side sets its own bit and not the other's. */
  lemma OwnBitOnly(side: Side)
    ensures |OwnerData(side)| == 1
    ensures OwnerData(side)[0] == if side == Host then 0x01 else 0x02
  {
  }

  /** Either bit counts, whichever side asks. */
  predicate IsOwner(payload: seq<bv8>) {
    payload != [] && payload[0] & 3 != 0
  }

  predicate IsMarker(c: Item) { c.Special? && c.name == OWNER_FORMAT }

  predicate IsOwnerMarker(c: Item) { IsMarker(c) && IsOwner(c.payload) }

  function OwnerMarker(side: Side): (c: Item)
    ensures IsOwnerMarker(c)
  {
    Special(OWNER_FORMAT, OwnerData(side))
  }

  /** The formats asked for; file URLs only in builds with file copy and paste. */
  predicate IsSupported(c: Item, fileUrls: bool) {
    match c
    case NoData => false
    case FileUrl(_) => fileUrls
    case Special(name, _) => name == EXCEL_FORMAT || name == OWNER_FORMAT
    case _ => true
  }

  // ---------------------------------------------------------------------------
  // Reading and writing one clipboard
  // ---------------------------------------------------------------------------

  function Filter(items: seq<Item>, keep: Item -> bool): (r: seq<Item>)
    ensures forall c :: c in r <==> c in items && keep(c)
  {
    if items == [] then []
    else
      var rest := Filter(items[1..], keep);
      assert items == [items[0]] + items[1..];
      if keep(items[0]) then [items[0]] + rest else rest
  }

  function Supported(fileUrls: bool): Item -> bool {
    c => IsSupported(c, fileUrls)
  }

  /** `get_formats`. */
  function Fetch(board: seq<Item>, fileUrls: bool): seq<Item> {
    Filter(board, Supported(fileUrls))
  }

  predicate MarkedByOwner(items: seq<Item>) {
    exists i :: 0 <= i < |items| && IsOwnerMarker(items[i])
  }

  predicate IsSent(c: Item) {
    !IsMarker(c) && !(c.Text? && c.text == "")
  }

  predicate HasFiles(items: seq<Item>) {
    exists i :: 0 <= i < |items| && items[i].FileUrl?
  }

  /** `ClipboardContext::get`: what a check reads, and so what a message carries. */
  function Content(board: seq<Item>, fileUrls: bool, force: bool): seq<Item> {
    var data := Fetch(board, fileUrls);
    var content := if !force && MarkedByOwner(data) then [] else Filter(data, IsSent);
    if HasFiles(content) then [] else content
  }

  method GetFormatsFilter(board: seq<Item>, fileUrls: bool, force: bool) returns (content: seq<Item>)
    ensures content == if !force && MarkedByOwner(Fetch(board, fileUrls)) then []
                       else Filter(Fetch(board, fileUrls), IsSent)
  {
    var data := Fetch(board, fileUrls);
    if data == [] {
      return [];
    }
    if !force {
      for i := 0 to |data|
        invariant forall j :: 0 <= j < i ==> !IsOwnerMarker(data[j])
      {
        if data[i].Special? && data[i].name == OWNER_FORMAT && IsOwner(data[i].payload) {
          return [];
        }
      }
    }
    content := Filter(data, IsSent);
  }

  lemma MarkedBoardIsNotRead(board: seq<Item>, fileUrls: bool)
    requires MarkedByOwner(board)
    ensures Content(board, fileUrls, false) == []
  {
    var i :| 0 <= i < |board| && IsOwnerMarker(board[i]);
    var data := Fetch(board, fileUrls);
    assert board[i] in data;
    var j :| 0 <= j < |data| && data[j] == board[i];
  }

  // ---------------------------------------------------------------------------
  // What is read
  // ---------------------------------------------------------------------------

  /** Filtering works item by item and keeps the order. */
  lemma {:induction false} FilterConcat(a: seq<Item>, b: seq<Item>, keep: Item -> bool)
    ensures Filter(a + b, keep) == Filter(a, keep) + Filter(b, keep)
    decreases |a|
  {
    if a == [] {
      assert a + b == b;
    } else {
      assert (a + b)[0] == a[0] && (a + b)[1..] == a[1..] + b;
      FilterConcat(a[1..], b, keep);
    }
  }

  lemma {:induction false} FilterTwice(items: seq<Item>, first: Item -> bool, second: Item -> bool, both: Item -> bool)
    requires forall i :: 0 <= i < |items| ==> (both(items[i]) <==> first(items[i]) && second(items[i]))
    ensures Filter(Filter(items, first), second) == Filter(items, both)
    decreases |items|
  {
    if items != [] {
      FilterTwice(items[1..], first, second, both);
      if first(items[0]) {
        assert ([items[0]] + Filter(items[1..], first))[1..] == Filter(items[1..], first);
      }
    }
  }

  /** What the clipboard is synchronised for: texts with something in them, formatted text, images, spreadsheets. */
  predicate IsShared(c: Item) {
    (c.Text? && c.text != "") || c.Rich? || c.Image? || (c.Special? && c.name == "XML Spreadsheet")
  }

  lemma KeptIffShared(c: Item, fileUrls: bool)
    requires fileUrls ==> !c.FileUrl?
    ensures IsSupported(c, fileUrls) && IsSent(c) <==> IsShared(c)
  {
  }

  lemma UnmarkedIsRead(board: seq<Item>, fileUrls: bool)
    requires forall c :: c in board ==> !IsOwnerMarker(c)
    ensures !MarkedByOwner(Fetch(board, fileUrls))
  {
    var data := Fetch(board, fileUrls);
    assert forall i :: 0 <= i < |data| ==> data[i] in data;
  }

  lemma FilesAreNotRead(board: seq<Item>, force: bool, c: Item)
    requires c in board && c.FileUrl? && !MarkedByOwner(Fetch(board, true))
    ensures Content(board, true, force) == []
  {
    var content := Filter(Fetch(board, true), IsSent);
    assert c in content;
    var i :| 0 <= i < |content| && content[i] == c;
  }

  /**
   A clipboard without an owner marker is read as its shared items, in order; but in builds that copy files nothing is
   read while files are on it.
   */
  lemma ContentOfUnmarked(board: seq<Item>, fileUrls: bool, force: bool)
    requires forall c :: c in board ==> !IsOwnerMarker(c)
    ensures Content(board, fileUrls, force) ==
            if fileUrls && (exists c :: c in board && c.FileUrl?) then [] else Filter(board, IsShared)
  {
    UnmarkedIsRead(board, fileUrls);
    if fileUrls && exists c :: c in board && c.FileUrl? {
      var c :| c in board && c.FileUrl?;
      FilesAreNotRead(board, force, c);
    } else {
      forall i | 0 <= i < |board|
        ensures IsShared(board[i]) <==> Supported(fileUrls)(board[i]) && IsSent(board[i])
      {
        assert board[i] in board;
        KeptIffShared(board[i], fileUrls);
      }
      FilterTwice(board, Supported(fileUrls), IsSent, IsShared);
      assert forall c :: c in Filter(board, IsShared) ==> !c.FileUrl?;
    }
  }

  // ---------------------------------------------------------------------------
  // Two machines
  // ---------------------------------------------------------------------------

  /** Who wrote the clipboard that was read. */
  datatype Origin = User | Peer

  /** `forced` tells whether the content was read with `force`, which looks past the marker. */
  datatype Message = Message(content: seq<Item>, forced: bool, origin: Origin)

  /** One machine: its clipboard and who wrote it, the cached last message, what its user ever copied, what it sent. */
  datatype Machine = Machine(
    board: seq<Item>, writer: Origin, cache: Message, copied: set<seq<Item>>, sent: seq<Message>)

  datatype State = State(host: Machine, client: Machine)

  /** `Deliver` hands the receiver a message of the other side, in any order and any number of times. */
  datatype Event =
    | Copy(side: Side, items: seq<Item>)
    | Check(side: Side, force: bool)
    | Resend(side: Side)
    | Deliver(side: Side, index: nat)

  datatype Build = Build(fileUrls: bool, decode: seq<Item> -> seq<Item>)

  const NOTHING := Message([], false, User)

  function Init(): State {
    var idle := Machine([], User, NOTHING, {}, []);
    State(idle, idle)
  }

  function Of(s: State, side: Side): Machine {
    match side case Host => s.host case Client => s.client
  }

  function Other(side: Side): Side {
    match side case Host => Client case Client => Host
  }

  function With(s: State, side: Side, m: Machine): State {
    match side case Host => s.(host := m) case Client => s.(client := m)
  }

  function Read(b: Build, m: Machine, force: bool): Message {
    Message(Content(m.board, b.fileUrls, force), force, m.writer)
  }

  /** `check_clipboard`: a non-empty read is sent and cached. */
  function CheckStep(b: Build, m: Machine, force: bool): Machine {
    var msg := Read(b, m, force);
    if msg.content == [] then m else m.(cache := msg, sent := m.sent + [msg])
  }

  /** `get_current_clipboard_msg`: the cached content, or a forced read when there is none. */
  function ResendStep(b: Build, m: Machine): Machine {
    var msg := if m.cache.content != [] then m.cache else Read(b, m, true);
    if msg.content == [] then m.(cache := msg) else m.(cache := msg, sent := m.sent + [msg])
  }

  /** `update_clipboard`: the received items with the receiver's owner marker. */
  function DeliverStep(b: Build, m: Machine, side: Side, content: seq<Item>): Machine {
    var items := b.decode(content);
    if items == [] then m else m.(board := items + [OwnerMarker(side)], writer := Peer)
  }

  function CopyStep(m: Machine, items: seq<Item>): Machine {
    m.(board := items, writer := User, copied := m.copied + {items})
  }

  function Step(b: Build, s: State, e: Event): State {
    var m := Of(s, e.side);
    match e
    case Copy(side, items) => With(s, side, CopyStep(m, items))
    case Check(side, force) => With(s, side, CheckStep(b, m, force))
    case Resend(side) => With(s, side, ResendStep(b, m))
    case Deliver(side, index) =>
      var from := Of(s, Other(side)).sent;
      if index >= |from| then s
      else With(s, side, DeliverStep(b, m, side, from[index].content))
  }

  function Exec(b: Build, s: State, es: seq<Event>): State
    decreases |es|
  {
    if es == [] then s else Exec(b, Step(b, s, es[0]), es[1..])
  }

  // ---------------------------------------------------------------------------
  // Where the content of messages comes from
  // ---------------------------------------------------------------------------

  /** `content` is read from something this machine's user copied. */
  ghost predicate UserContent(b: Build, m: Machine, content: seq<Item>, force: bool) {
    exists c :: c in m.copied && content == Content(c, b.fileUrls, force)
  }

  /** What is on the clipboard of `side` after a message with this content is delivered. */
  function Delivered(b: Build, side: Side, content: seq<Item>): seq<Item> {
    b.decode(content) + [OwnerMarker(side)]
  }

  ghost predicate BoardOk(b: Build, m: Machine, side: Side, incoming: seq<Message>) {
    match m.writer
    case User => m.board == [] || m.board in m.copied
    case Peer => exists j :: 0 <= j < |incoming| && m.board == Delivered(b, side, incoming[j].content)
  }

  /** A message carries the sender's own content, or by a forced read content that the peer sent before. */
  ghost predicate MessageOk(b: Build, m: Machine, side: Side, incoming: seq<Message>, msg: Message) {
    msg.content != [] ==>
      match msg.origin
      case User => UserContent(b, m, msg.content, msg.forced)
      case Peer =>
        && msg.forced
        && exists j :: 0 <= j < |incoming|
                       && msg.content == Content(Delivered(b, side, incoming[j].content), b.fileUrls, true)
  }

  ghost predicate MachineInv(b: Build, m: Machine, side: Side, incoming: seq<Message>) {
    && BoardOk(b, m, side, incoming) && MessageOk(b, m, side, incoming, m.cache)
    && forall i :: 0 <= i < |m.sent| ==> m.sent[i].content != [] && MessageOk(b, m, side, incoming, m.sent[i])
  }

  ghost predicate SideInv(b: Build, s: State, side: Side) {
    MachineInv(b, Of(s, side), side, Of(s, Other(side)).sent)
  }

  ghost predicate Inv(b: Build, s: State) {
    SideInv(b, s, Host) && SideInv(b, s, Client)
  }

  lemma DeliveredIsMarked(b: Build, side: Side, content: seq<Item>)
    ensures MarkedByOwner(Delivered(b, side, content))
  {
    var board := Delivered(b, side, content);
    assert IsOwnerMarker(board[|board| - 1]);
  }

  lemma ReadIsOk(b: Build, m: Machine, side: Side, incoming: seq<Message>, force: bool)
    requires BoardOk(b, m, side, incoming)
    ensures MessageOk(b, m, side, incoming, Read(b, m, force))
  {
    if m.writer == Peer {
      var j :| 0 <= j < |incoming| && m.board == Delivered(b, side, incoming[j].content);
      DeliveredIsMarked(b, side, incoming[j].content);
      if !force {
        MarkedBoardIsNotRead(m.board, b.fileUrls);
      }
    } else if m.board == [] {
      assert Read(b, m, force).content == [];
    }
  }

  /** What a message carries stays explained when the user copies more and the peer sends more. */
  lemma MessageStaysOk(b: Build, m: Machine, m': Machine, side: Side, incoming: seq<Message>, more: seq<Message>, msg: Message)
    requires MessageOk(b, m, side, incoming, msg) && m.copied <= m'.copied && incoming <= more
    ensures MessageOk(b, m', side, more, msg)
  {
    if msg.content != [] {
      match msg.origin {
        case User =>
          var c :| c in m.copied && msg.content == Content(c, b.fileUrls, msg.forced);
          assert c in m'.copied;
        case Peer =>
          var j :| 0 <= j < |incoming|
            && msg.content == Content(Delivered(b, side, incoming[j].content), b.fileUrls, true);
          assert more[j] == incoming[j];
      }
    }
  }

  /** A new clipboard, with more copied. */
  lemma WriteKeepsInv(b: Build, m: Machine, m': Machine, side: Side, incoming: seq<Message>)
    requires MachineInv(b, m, side, incoming) && BoardOk(b, m', side, incoming)
    requires m'.cache == m.cache && m'.sent == m.sent && m.copied <= m'.copied
    ensures MachineInv(b, m', side, incoming)
  {
    MessageStaysOk(b, m, m', side, incoming, incoming, m.cache);
    forall i | 0 <= i < |m.sent| ensures MessageOk(b, m', side, incoming, m.sent[i]) {
      MessageStaysOk(b, m, m', side, incoming, incoming, m.sent[i]);
    }
  }

  /** A message that is cached and, unless empty, sent. */
  lemma SendKeepsInv(b: Build, m: Machine, side: Side, incoming: seq<Message>, msg: Message)
    requires MachineInv(b, m, side, incoming) && MessageOk(b, m, side, incoming, msg)
    ensures MachineInv(b, m.(cache := msg), side, incoming)
    ensures msg.content != [] ==> MachineInv(b, m.(cache := msg, sent := m.sent + [msg]), side, incoming)
  {
    var m' := m.(cache := msg, sent := m.sent + [msg]);
    MessageStaysOk(b, m, m', side, incoming, incoming, msg);
    forall i | 0 <= i < |m.sent| ensures MessageOk(b, m', side, incoming, m.sent[i]) {
      MessageStaysOk(b, m, m', side, incoming, incoming, m.sent[i]);
    }
    forall i | 0 <= i < |m.sent| ensures MessageOk(b, m.(cache := msg), side, incoming, m.sent[i]) {
      MessageStaysOk(b, m, m.(cache := msg), side, incoming, incoming, m.sent[i]);
    }
  }

  /** The step of one machine, given what it may receive. */
  lemma OwnStepKeepsInv(b: Build, s: State, e: Event)
    requires MachineInv(b, Of(s, e.side), e.side, Of(s, Other(e.side)).sent)
    ensures MachineInv(b, Of(Step(b, s, e), e.side), e.side, Of(s, Other(e.side)).sent)
  {
    var m, incoming := Of(s, e.side), Of(s, Other(e.side)).sent;
    match e {
      case Copy(side, items) => WriteKeepsInv(b, m, CopyStep(m, items), side, incoming);
      case Check(side, force) =>
        ReadIsOk(b, m, side, incoming, force);
        SendKeepsInv(b, m, side, incoming, Read(b, m, force));
      case Resend(side) =>
        ReadIsOk(b, m, side, incoming, true);
        SendKeepsInv(b, m, side, incoming, if m.cache.content != [] then m.cache else Read(b, m, true));
      case Deliver(side, index) =>
        if index < |incoming| {
          var m' := DeliverStep(b, m, side, incoming[index].content);
          if m' != m {
            assert m'.board == Delivered(b, side, incoming[index].content);
            WriteKeepsInv(b, m, m', side, incoming);
          }
        }
    }
  }

  /** A step leaves the other machine alone and only adds messages. */
  lemma StepFrame(b: Build, s: State, e: Event)
    ensures var s' := Step(b, s, e);
            Of(s', Other(e.side)) == Of(s, Other(e.side)) && Of(s, e.side).sent <= Of(s', e.side).sent
  {
  }

  lemma StepKeepsOwnSide(b: Build, s: State, e: Event)
    requires SideInv(b, s, e.side)
    ensures SideInv(b, Step(b, s, e), e.side)
  {
    OwnStepKeepsInv(b, s, e);
    StepFrame(b, s, e);
  }

  lemma StepKeepsOtherSide(b: Build, s: State, e: Event)
    requires SideInv(b, s, Other(e.side))
    ensures SideInv(b, Step(b, s, e), Other(e.side))
  {
    var s', other := Step(b, s, e), Other(e.side);
    StepFrame(b, s, e);
  }

  lemma StepKeepsInv(b: Build, s: State, e: Event)
    requires Inv(b, s)
    ensures Inv(b, Step(b, s, e))
  {
    var s' := Step(b, s, e);
    match e.side {
      case Host =>
        assert SideInv(b, s', Host) by { StepKeepsOwnSide(b, s, e); }
        assert SideInv(b, s', Client) by { StepKeepsOtherSide(b, s, e); }
      case Client =>
        assert SideInv(b, s', Client) by { StepKeepsOwnSide(b, s, e); }
        assert SideInv(b, s', Host) by { StepKeepsOtherSide(b, s, e); }
    }
  }

  lemma {:induction false} ExecKeepsInv(b: Build, s: State, es: seq<Event>)
    requires Inv(b, s)
    ensures Inv(b, Exec(b, s, es))
    decreases |es|
  {
    if es != [] {
      StepKeepsInv(b, s, es[0]);
      ExecKeepsInv(b, Step(b, s, es[0]), es[1..]);
    }
  }

  /**
   For every interleaving of copies, checks, resends and deliveries on both machines: a message carries something
   that the sending machine's own user copied, or it was read with `force` and carries what the peer sent before.
   */
  lemma MessageProvenance(b: Build, es: seq<Event>, side: Side, i: nat)
    requires i < |Of(Exec(b, Init(), es), side).sent|
    ensures var s := Exec(b, Init(), es);
            var m, incoming := Of(s, side), Of(s, Other(side)).sent;
            m.sent[i].content != [] && MessageOk(b, m, side, incoming, m.sent[i])
  {
    ExecKeepsInv(b, Init(), es);
  }

  /** So a message read without `force` is the sender's own, whichever side's marker received content bears. */
  lemma NoClipboardEcho(b: Build, es: seq<Event>, side: Side, i: nat)
    requires i < |Of(Exec(b, Init(), es), side).sent| && !Of(Exec(b, Init(), es), side).sent[i].forced
    ensures var m := Of(Exec(b, Init(), es), side); UserContent(b, m, m.sent[i].content, false)
  {
    MessageProvenance(b, es, side, i);
  }

  lemma StepsOfSync(b: Build, s: State, side: Side, board: seq<Item>)
    ensures var s1 := Step(b, s, Copy(side, board));
            var s2 := Step(b, s1, Check(side, false));
            var content := Content(board, b.fileUrls, false);
            && Of(s1, side).board == board && Of(s1, side).sent == Of(s, side).sent
            && Of(s2, Other(side)) == Of(s, Other(side))
            && (content != [] ==> Of(s2, side).sent == Of(s, side).sent + [Message(content, false, User)])
  {
  }

  /** What a user copies arrives: the next check sends its shared items, and the peer's clipboard then holds them. */
  lemma CopyArrives(b: Build, s: State, side: Side, board: seq<Item>)
    requires forall c :: c in board ==> !IsOwnerMarker(c) && !c.FileUrl?
    requires Filter(board, IsShared) != [] && b.decode(Filter(board, IsShared)) != []
    ensures var s' := Step(b, Step(b, Step(b, s, Copy(side, board)), Check(side, false)),
                           Deliver(Other(side), |Of(s, side).sent|));
            Of(s', Other(side)).board == b.decode(Filter(board, IsShared)) + [OwnerMarker(Other(side))]
  {
    ContentOfUnmarked(board, b.fileUrls, false);
    StepsOfSync(b, s, side, board);
    assert Other(Other(side)) == side;
  }

  /** The cached message is the last one sent. */
  ghost predicate CachesLast(m: Machine) {
    if m.sent == [] then m.cache.content == [] else m.cache == m.sent[|m.sent| - 1] && m.cache.content != []
  }

  lemma {:induction false} ExecCachesLast(b: Build, s: State, es: seq<Event>)
    requires CachesLast(s.host) && CachesLast(s.client)
    ensures var s' := Exec(b, s, es); CachesLast(s'.host) && CachesLast(s'.client)
    decreases |es|
  {
    if es != [] {
      var m := Of(s, es[0].side);
      assert CachesLast(Of(Step(b, s, es[0]), es[0].side));
      ExecCachesLast(b, Step(b, s, es[0]), es[1..]);
    }
  }

  /** Sending the current clipboard repeats the last message sent, whatever is on the clipboard by now. */
  lemma ResendRepeats(b: Build, es: seq<Event>, side: Side)
    ensures var s := Exec(b, Init(), es);
            var sent := Of(s, side).sent;
            sent != [] ==> Of(Step(b, s, Resend(side)), side).sent == sent + [sent[|sent| - 1]]
  {
    ExecCachesLast(b, Init(), es);
  }

  // ---------------------------------------------------------------------------
  // When received content is sent back
  // ---------------------------------------------------------------------------

  ghost predicate HasEcho(m: Machine) {
    exists i :: 0 <= i < |m.sent| && m.sent[i].origin == Peer
  }

  /** The step reads a non-empty clipboard that the peer wrote, past its marker: there is no cached message. */
  predicate ReadsReceived(b: Build, m: Machine, side: Side, e: Event) {
    && (e == Check(side, true) || (e == Resend(side) && m.cache.content == []))
    && m.writer == Peer && Content(m.board, b.fileUrls, true) != []
  }

  ghost predicate EverReadsReceived(b: Build, s: State, es: seq<Event>, side: Side)
    decreases |es|
  {
    es != [] &&
    (ReadsReceived(b, Of(s, side), side, es[0]) || EverReadsReceived(b, Step(b, s, es[0]), es[1..], side))
  }

  /** A cached message that carries received content has been sent. */
  ghost predicate CacheWasSent(m: Machine) {
    m.cache.content != [] && m.cache.origin == Peer ==> HasEcho(m)
  }

  lemma OneMoreMessage(m: Machine, m': Machine, msg: Message)
    requires m'.sent == m.sent + [msg]
    ensures HasEcho(m') <==> HasEcho(m) || msg.origin == Peer
  {
    if HasEcho(m) {
      var i :| 0 <= i < |m.sent| && m.sent[i].origin == Peer;
      assert m'.sent[i].origin == Peer;
    }
    if msg.origin == Peer {
      assert m'.sent[|m.sent|].origin == Peer;
    }
  }

  lemma SendEchoes(m: Machine, msg: Message)
    requires CacheWasSent(m)
    ensures var m' := m.(cache := msg, sent := m.sent + [msg]);
            CacheWasSent(m') && (HasEcho(m') <==> HasEcho(m) || msg.origin == Peer)
  {
    OneMoreMessage(m, m.(cache := msg, sent := m.sent + [msg]), msg);
  }

  lemma UnforcedReadOfReceived(b: Build, m: Machine, side: Side, incoming: seq<Message>)
    requires BoardOk(b, m, side, incoming) && m.writer == Peer
    ensures Content(m.board, b.fileUrls, false) == []
  {
    var j :| 0 <= j < |incoming| && m.board == Delivered(b, side, incoming[j].content);
    DeliveredIsMarked(b, side, incoming[j].content);
    MarkedBoardIsNotRead(m.board, b.fileUrls);
  }

  /** A step echoes exactly if it reads a received clipboard by force. */
  lemma StepEchoes(b: Build, s: State, e: Event, side: Side)
    requires Inv(b, s) && CacheWasSent(Of(s, side))
    ensures var m' := Of(Step(b, s, e), side);
            CacheWasSent(m') && (HasEcho(m') <==> HasEcho(Of(s, side)) || ReadsReceived(b, Of(s, side), side, e))
  {
    var m := Of(s, side);
    if e.side == side {
      match e {
        case Copy(_, items) =>
        case Deliver(_, index) =>
        case Check(_, force) =>
          SendEchoes(m, Read(b, m, force));
          if m.writer == Peer && !force {
            UnforcedReadOfReceived(b, m, side, Of(s, Other(side)).sent);
          }
        case Resend(_) =>
          SendEchoes(m, if m.cache.content != [] then m.cache else Read(b, m, true));
      }
    }
  }

  lemma {:induction false} ExecEchoes(b: Build, s: State, es: seq<Event>, side: Side)
    requires Inv(b, s) && CacheWasSent(Of(s, side))
    ensures HasEcho(Of(Exec(b, s, es), side)) <==> HasEcho(Of(s, side)) || EverReadsReceived(b, s, es, side)
    decreases |es|
  {
    if es != [] {
      StepKeepsInv(b, s, es[0]);
      StepEchoes(b, s, es[0], side);
      ExecEchoes(b, Step(b, s, es[0]), es[1..], side);
    }
  }

  /**
   A machine sends received content back exactly if it ever reads a non-empty clipboard that the peer wrote with
   `force`, that is by a forced check, or by a resend without a cached message. In all other runs every message it
   sends is its own user's.
   */
  lemma EchoIff(b: Build, es: seq<Event>, side: Side)
    ensures HasEcho(Of(Exec(b, Init(), es), side)) <==> EverReadsReceived(b, Init(), es, side)
    ensures var m := Of(Exec(b, Init(), es), side);
            !EverReadsReceived(b, Init(), es, side) ==>
              forall i :: 0 <= i < |m.sent| ==> UserContent(b, m, m.sent[i].content, m.sent[i].forced)
  {
    ExecEchoes(b, Init(), es, side);
    var m := Of(Exec(b, Init(), es), side);
    forall i | 0 <= i < |m.sent| ensures m.sent[i].origin == User ==> UserContent(b, m, m.sent[i].content, m.sent[i].forced) {
      MessageProvenance(b, es, side, i);
    }
  }

  /** The run: the host's user copies a text, it reaches the client, and the client sends its current clipboard. */
  function EchoRun(text: string): seq<Event> {
    [Copy(Host, [Text(text)]), Check(Host, false), Deliver(Client, 0), Resend(Client)]
  }

  lemma ExecFour(b: Build, s: State, e1: Event, e2: Event, e3: Event, e4: Event)
    ensures Exec(b, s, [e1, e2, e3, e4]) == Step(b, Step(b, Step(b, Step(b, s, e1), e2), e3), e4)
  {
    var s1 := Step(b, s, e1);
    var s2 := Step(b, s1, e2);
    var s3 := Step(b, s2, e3);
    assert [e1, e2, e3, e4][1..] == [e2, e3, e4] && [e2, e3, e4][1..] == [e3, e4];
    assert [e3, e4][1..] == [e4] && [e4][1..] == [];
    assert Exec(b, s1, [e2, e3, e4]) == Exec(b, s2, [e3, e4]);
    assert Exec(b, s3, [e4]) == Exec(b, Step(b, s3, e4), []);
  }

  lemma FilterOne(x: Item, keep: Item -> bool)
    ensures Filter([x], keep) == if keep(x) then [x] else []
  {
    assert [x][1..] == [] && Filter([], keep) == [];
  }

  lemma FilterTwo(x: Item, y: Item, keep: Item -> bool)
    ensures Filter([x, y], keep) == (if keep(x) then [x] else []) + if keep(y) then [y] else []
  {
    assert [x, y][1..] == [y];
    FilterOne(y, keep);
  }

  lemma TextIsSent(text: string, fileUrls: bool, side: Side)
    requires text != ""
    ensures Content([Text(text)], fileUrls, false) == [Text(text)]
    ensures Content([Text(text), OwnerMarker(side)], fileUrls, true) == [Text(text)]
  {
    var item, marker := Text(text), OwnerMarker(side);
    FilterOne(item, Supported(fileUrls));
    FilterOne(item, IsSent);
    FilterTwo(item, marker, Supported(fileUrls));
    FilterTwo(item, marker, IsSent);
    assert [item] + [marker] == [item, marker] && [item] + [] == [item];
  }

  /** A client whose user copied nothing sends the host's text back when it first sends its current clipboard. */
  lemma ResendEchoes(b: Build, text: string)
    requires text != "" && b.decode([Text(text)]) == [Text(text)]
    ensures var client := Exec(b, Init(), EchoRun(text)).client;
            client.copied == {} && client.sent == [Message([Text(text)], true, Peer)]
  {
    var run, items := EchoRun(text), [Text(text)];
    TextIsSent(text, b.fileUrls, Client);
    ExecFour(b, Init(), run[0], run[1], run[2], run[3]);
    var s1 := Step(b, Init(), run[0]);
    var s2 := Step(b, s1, run[1]);
    assert s2.host.sent == [Message(items, false, User)];
    var s3 := Step(b, s2, run[2]);
    assert s3.client.board == [Text(text), OwnerMarker(Client)];
  }

  // ---------------------------------------------------------------------------
  // The code on one machine
  // ---------------------------------------------------------------------------

  class Clipboard {
    const build: Build
    const side: Side
    var board: seq<Item>
    var writer: Origin
    var cache: Message

    /** The machine, with the messages it has sent; what the user copied is not recorded. */
    ghost function View(sent: seq<Message>): Machine
      reads this
    {
      Machine(board, writer, cache, {}, sent)
    }

    constructor (build: Build, side: Side)
      ensures this.build == build && this.side == side && View([]) == Init().host
    {
      this.build, this.side := build, side;
      board, writer, cache := [], User, NOTHING;
    }

    /** `update_clipboard` with a received message: the next unforced check reads nothing back. */
    method UpdateClipboard(content: seq<Item>)
      modifies this`board, this`writer
      ensures View([]) == DeliverStep(build, old(View([])), side, content)
      ensures build.decode(content) != [] ==> Content(board, build.fileUrls, false) == []
    {
      var received := build.decode(content);
      if received == [] {
        return;
      }
      board, writer := received + [Special(OWNER_FORMAT, OwnerData(side))], Peer;
      DeliveredIsMarked(build, side, content);
      MarkedBoardIsNotRead(board, build.fileUrls);
    }

    /** `ClipboardContext::get`. */
    method Get(force: bool) returns (content: seq<Item>)
      ensures content == Content(board, build.fileUrls, force)
    {
      content := GetFormatsFilter(board, build.fileUrls, force);
      if HasFiles(content) {
        content := [];
      }
    }

    /** `check_clipboard`: the content of the clipboard, if there is any to send, which is then cached. */
    method CheckClipboard(force: bool) returns (msg: Option<Message>)
      modifies this`cache
      ensures View(if msg.Some? then [msg.value] else []) == CheckStep(build, old(View([])), force)
    {
      var content := Get(force);
      if content == [] {
        return None;
      }
      cache := Message(content, force, writer);
      return Some(cache);
    }

    /** `get_current_clipboard_msg`: the cached message, or else a forced read. */
    method CurrentMessage() returns (msg: Option<Message>)
      modifies this`cache
      ensures View(if msg.Some? then [msg.value] else []) == ResendStep(build, old(View([])))
    {
      if cache.content == [] {
        var content := Get(true);
        cache := Message(content, true, writer);
      }
      if cache.content == [] {
        return None;
      }
      return Some(cache);
    }
  }
}
