/**
 Clipboard sync between any number of devices, and why a remote change is not echoed back.

 The poll loop and the message handler of a device run as two tasks.  Every place where one of
 them can be suspended ends a step, so an apply may fall into a poll that has already read the
 clipboard.  Fingerprints and blob hashes are injective.  What a clipboard reads back after a write is
 worked out from what the write offers to other programs: on Linux a text that lists existing paths is
 read as those files.  An image, HTML, and a list of files are taken to be offered as they were written.
*/
module Clipboard {
  import opened Wrappers

  type Bytes = seq<bv8>
  type DeviceId = nat

  const CLIPBOARD_PAYLOAD_VERSION: nat := 2
  const INLINE_HTML_THRESHOLD := 64 * 1024

  /** A hash names its data. */
  datatype BlobHash = Blake3(data: Bytes)

  /** So does the hash of a collection. */
  datatype CollectionHash = Root(files: seq<(string, Bytes)>)

  /** A file that exists; if its data changes on disk, that is a local change of the clipboard. */
  datatype LocalFile = LocalFile(path: string, data: Bytes)

  /** `Unreadable` are paths that exist and of which one cannot be read, such as a folder. */
  datatype Content =
    | Text(text: Bytes)
    | Html(html: Bytes, plain: Bytes)
    | Image(width: nat, height: nat, rgba: Bytes)
    | Files(files: seq<LocalFile>)
    | Unreadable(paths: seq<string>)

  datatype Body =
    | TextBody(text: Bytes)
    | HtmlBody(html: Bytes, plain: Bytes)
    | HtmlBlobBody(hash: BlobHash, plain: Bytes)
    | ImageBody(hash: BlobHash, width: nat, height: nat, mime: string)
    | FilesBody(collection: CollectionHash, entries: seq<(string, nat)>)

  datatype Payload = Payload(version: nat, body: Body)

  /** The PNG codec, the base name of a path, the trimmed lines of a text that are not empty, decoding the
      path of a URI, and HTML without its tags. */
  datatype HostIo = HostIo(
    encode: (nat, nat, Bytes) -> Option<Bytes>, decode: Bytes -> Option<(nat, nat, Bytes)>, baseName: string -> string,
    lines: Bytes -> seq<string>, percentDecode: string -> Option<string>, stripTags: Bytes -> Bytes)

  datatype Entry = Absent | Folder | File(data: Bytes)

  /** What differs between devices: the system, and what is on the disk. */
  datatype Host = Host(linux: bool, onDisk: string -> Entry)

  /** Decoding an encoded picture succeeds and yields pixels that encode to the same bytes; a base name is
      its own base name. */
  ghost predicate Faithful(io: HostIo) {
    && (forall w: nat, h: nat, rgba: Bytes :: io.encode(w, h, rgba).Some? ==> KeepsPicture(io, w, h, rgba))
    && (forall path: string :: io.baseName(io.baseName(path)) == io.baseName(path))
  }

  predicate KeepsPicture(io: HostIo, w: nat, h: nat, rgba: Bytes)
    requires io.encode(w, h, rgba).Some?
  {
    var data := io.encode(w, h, rgba).value;
    io.decode(data).Some? && io.encode(w, h, io.decode(data).value.2) == Some(data)
  }

  function Named(files: seq<LocalFile>, io: HostIo): (named: seq<(string, Bytes)>)
    ensures |named| == |files|
  {
    seq(|files|, i requires 0 <= i < |files| => (io.baseName(files[i].path), files[i].data))
  }

  function Sizes(named: seq<(string, Bytes)>): seq<(string, nat)> {
    seq(|named|, i requires 0 <= i < |named| => (named[i].0, |named[i].1|))
  }

  /** `content_to_payload`, when reading and storing succeed. */
  function ToPayload(content: Content, io: HostIo): Option<Payload> {
    match content
    case Text(text) => Some(Payload(CLIPBOARD_PAYLOAD_VERSION, TextBody(text)))
    case Html(html, plain) =>
      Some(Payload(CLIPBOARD_PAYLOAD_VERSION,
                   if |html| <= INLINE_HTML_THRESHOLD then HtmlBody(html, plain)
                   else HtmlBlobBody(Blake3(html), plain)))
    case Image(w, h, rgba) =>
      (match io.encode(w, h, rgba)
       case None => None
       case Some(data) => Some(Payload(CLIPBOARD_PAYLOAD_VERSION, ImageBody(Blake3(data), w, h, "image/png"))))
    case Files(files) =>
      if files == [] then None
      else Some(Payload(CLIPBOARD_PAYLOAD_VERSION, FilesBody(Root(Named(files, io)), Sizes(Named(files, io)))))
    case Unreadable(_) => None
  }

  /** What a file of that name holds once all of them have been written to one directory, in order. */
  function LastData(named: seq<(string, Bytes)>, name: string, io: HostIo): Bytes {
    if named == [] then []
    else if io.baseName(named[|named| - 1].0) == name then named[|named| - 1].1
    else LastData(named[..|named| - 1], name, io)
  }

  function Received(named: seq<(string, Bytes)>, io: HostIo): (files: seq<LocalFile>)
    ensures |files| == |named|
  {
    seq(|named|, i requires 0 <= i < |named| =>
      LocalFile(io.baseName(named[i].0), LastData(named, io.baseName(named[i].0), io)))
  }

  /** `resolve_payload_to_content`, when fetching and writing files succeed.  The version is not looked at. */
  function ToContent(payload: Payload, io: HostIo): Option<Content> {
    match payload.body
    case TextBody(text) => Some(Text(text))
    case HtmlBody(html, plain) => Some(Html(html, plain))
    case HtmlBlobBody(hash, plain) => Some(Html(hash.data, plain))
    case ImageBody(hash, w, h, _) =>
      (match io.decode(hash.data)
       case None => None
       case Some(picture) => Some(Image(w, h, picture.2)))
    case FilesBody(collection, _) => Some(Files(Received(collection.files, io)))
  }

  /** What is sent arrives: a text and HTML as they were, a picture of the same size that encodes to the same
      data, files in order under their base names, with their data where no two clash. */
  lemma SentContentArrives(content: Content, io: HostIo)
    requires Faithful(io) && ToPayload(content, io).Some?
    ensures ToPayload(content, io).value.version == CLIPBOARD_PAYLOAD_VERSION
    ensures ToContent(ToPayload(content, io).value, io).Some?
    ensures var got := ToContent(ToPayload(content, io).value, io).value;
            match content
            case Image(w, h, rgba) =>
              got.Image? && got.width == w && got.height == h && io.encode(w, h, got.rgba) == io.encode(w, h, rgba)
            case Files(files) => got.Files? && SameFiles(files, got.files, io)
            case _ => got == content
  {
    match content {
      case Image(w, h, rgba) => assert KeepsPicture(io, w, h, rgba);
      case Files(files) => ReceivedAreTheFiles(files, io);
      case _ =>
    }
  }

  ghost predicate SameFiles(files: seq<LocalFile>, got: seq<LocalFile>, io: HostIo) {
    && |got| == |files|
    && (forall i :: 0 <= i < |files| ==> got[i].path == io.baseName(files[i].path))
    && (NoClash(Files(files), io) ==> forall i :: 0 <= i < |files| ==> got[i].data == files[i].data)
  }

  lemma ReceivedAreTheFiles(files: seq<LocalFile>, io: HostIo)
    requires Faithful(io)
    ensures SameFiles(files, Received(Named(files, io), io), io)
  {
    var named := Named(files, io);
    forall i | 0 <= i < |files| ensures named[i] == (io.baseName(files[i].path), files[i].data) {
    }
    if NoClash(Files(files), io) {
      forall i | 0 <= i < |files| ensures LastData(named, io.baseName(named[i].0), io) == files[i].data {
        var j := LastDataFound(named, i, io);
        assert io.baseName(files[j].path) == io.baseName(files[i].path);
      }
    }
  }

  // ---------------------------------------------------------------- reading a clipboard back

  function PathOf(line: string, io: HostIo): Option<string> {
    if "file://" <= line then io.percentDecode(line[7..])
    else if "/" <= line then Some(line)
    else None
  }

  function WithoutVerb(lines: seq<string>): seq<string> {
    if lines != [] && lines[0] in {"copy", "cut"} then lines[1..] else lines
  }

  /** The paths a text lists: one line that is no path spoils them all. */
  function ListedPaths(lines: seq<string>, io: HostIo): seq<string> {
    var rest := WithoutVerb(lines);
    if exists k :: 0 <= k < |rest| && PathOf(rest[k], io).None? then []
    else seq(|rest|, k requires 0 <= k < |rest| => PathOf(rest[k], io).value)
  }

  method ParseFilePaths(text: Bytes, io: HostIo) returns (paths: seq<string>)
    ensures paths == ListedPaths(io.lines(text), io)
  {
    var lines := WithoutVerb(io.lines(text));
    paths := [];
    if lines == [] {
      return;
    }
    for i := 0 to |lines|
      invariant |paths| == i
      invariant forall k :: 0 <= k < i ==> PathOf(lines[k], io) == Some(paths[k])
    {
      var path := PathOf(lines[i], io);
      if path.None? {
        return [];
      }
      paths := paths + [path.value];
    }
  }

  function Existing(paths: seq<string>, host: Host): seq<string> {
    if paths == [] then []
    else if host.onDisk(paths[0]).Absent? then Existing(paths[1..], host)
    else [paths[0]] + Existing(paths[1..], host)
  }

  /** The existing paths a text is read as; only Linux looks for them. */
  function Listed(text: Bytes, io: HostIo, host: Host): seq<string> {
    if host.linux then Existing(ListedPaths(io.lines(text), io), host) else []
  }

  predicate AllFiles(paths: seq<string>, host: Host) {
    forall k :: 0 <= k < |paths| ==> host.onDisk(paths[k]).File?
  }

  function ContentAt(paths: seq<string>, host: Host): Content {
    if AllFiles(paths, host) then
      Files(seq(|paths|, k requires 0 <= k < |paths| => LocalFile(paths[k], host.onDisk(paths[k]).data)))
    else Unreadable(paths)
  }

  /** What a system clipboard offers, kind by kind. */
  datatype Offers = Offers(files: seq<LocalFile>, image: Option<(nat, nat, Bytes)>, html: Option<Bytes>,
                           text: Option<Bytes>)

  /** `write_system_clipboard`; the paths of received files exist. */
  function Offered(content: Content): Offers {
    match content
    case Text(text) => Offers([], None, None, Some(text))
    case Html(html, plain) => Offers([], None, Some(html), Some(plain))
    case Image(w, h, rgba) => Offers([], Some((w, h, rgba)), None, None)
    case Files(files) => Offers(files, None, None, None)
    case Unreadable(_) => Offers([], None, None, None)
  }

  /** `read_system_clipboard`: files first, also those a text lists, then an image, HTML and text. */
  function ReadSystem(offers: Offers, io: HostIo, host: Host): Option<Content> {
    if offers.files != [] then Some(Files(offers.files))
    else if offers.text.Some? && Listed(offers.text.value, io, host) != [] then
      Some(ContentAt(Listed(offers.text.value, io, host), host))
    else if offers.image.Some? then
      Some(Image(offers.image.value.0, offers.image.value.1, offers.image.value.2))
    else if offers.html.Some? then
      Some(Html(offers.html.value,
                if offers.text.Some? then offers.text.value else io.stripTags(offers.html.value)))
    else if offers.text.Some? then Some(Text(offers.text.value))
    else None
  }

  /** What the clipboard reads as once the payload has been written to it. */
  function Applied(payload: Payload, io: HostIo, host: Host): Option<Content> {
    match ToContent(payload, io)
    case None => None
    case Some(content) => ReadSystem(Offered(content), io, host)
  }

  /** The content would be sent, and as another payload. */
  predicate Differs(content: Option<Content>, payload: Payload, io: HostIo) {
    content.Some? && ToPayload(content.value, io).Some? && ToPayload(content.value, io) != Some(payload)
  }

  /** Applying the payload on that host makes its clipboard look like a local change. */
  predicate Echoes(payload: Payload, io: HostIo, host: Host) {
    Differs(Applied(payload, io, host), payload, io)
  }

  /** No two files with the same base name but different data. */
  ghost predicate NoClash(content: Content, io: HostIo) {
    content.Files? ==>
      forall i, j :: 0 <= i < |content.files| && 0 <= j < |content.files| &&
                     io.baseName(content.files[i].path) == io.baseName(content.files[j].path) ==>
        content.files[i].data == content.files[j].data
  }

  /** The last file of a name decides what the name holds. */
  lemma {:induction false} LastDataFound(named: seq<(string, Bytes)>, i: nat, io: HostIo) returns (j: nat)
    requires i < |named|
    ensures j < |named| && io.baseName(named[j].0) == io.baseName(named[i].0)
    ensures LastData(named, io.baseName(named[i].0), io) == named[j].1
    ensures forall k :: j < k < |named| ==> io.baseName(named[k].0) != io.baseName(named[i].0)
  {
    var last := |named| - 1;
    if io.baseName(named[last].0) == io.baseName(named[i].0) {
      j := last;
    } else {
      j := LastDataFound(named[..last], i, io);
    }
  }

  /** A list of files comes back as it was sent exactly when no two of them share a base name and differ:
      all are written to one directory, where the last of a name overwrites the others. */
  lemma FilesComeBackExactlyWhen(files: seq<LocalFile>, io: HostIo)
    requires Faithful(io)
    ensures Named(Received(Named(files, io), io), io) == Named(files, io) <==> NoClash(Files(files), io)
  {
    var named := Named(files, io);
    var back := Named(Received(named, io), io);
    forall i | 0 <= i < |files| ensures back[i].0 == named[i].0 && io.baseName(named[i].0) == named[i].0 {
      assert named[i].0 == io.baseName(files[i].path);
    }
    if NoClash(Files(files), io) {
      forall i | 0 <= i < |files| ensures back[i] == named[i] {
        var j := LastDataFound(named, i, io);
        assert io.baseName(files[j].path) == io.baseName(files[i].path);
      }
    }
    if back == named {
      forall i, j | 0 <= i < |files| && 0 <= j < |files| && io.baseName(files[i].path) == io.baseName(files[j].path)
        ensures files[i].data == files[j].data
      {
        assert back[i].1 == named[i].1 && back[j].1 == named[j].1;
      }
    }
  }

  /** The plain text names existing paths, and all of them are files. */
  predicate ReadsAsFiles(text: Bytes, io: HostIo, host: Host) {
    Listed(text, io, host) != [] && AllFiles(Listed(text, io, host), host)
  }

  /** What a host does not take over as it is sent. */
  ghost predicate Troubles(content: Content, io: HostIo, host: Host) {
    match content
    case Text(text) => ReadsAsFiles(text, io, host)
    case Html(_, plain) => ReadsAsFiles(plain, io, host)
    case Files(_) => !NoClash(content, io)
    case _ => false
  }

  /** What a text lists is sent as a collection, or not at all. */
  lemma ListedIsSentAsFiles(text: Bytes, io: HostIo, host: Host)
    requires Listed(text, io, host) != []
    ensures var sent := ToPayload(ContentAt(Listed(text, io, host), host), io);
            (sent.Some? <==> ReadsAsFiles(text, io, host)) && (sent.Some? ==> sent.value.body.FilesBody?)
  {
  }

  /** What this version sends is echoed by a host exactly when it is a text or HTML whose plain text the
      host reads as a list of files, or a list of files that clash. */
  lemma SentPayloadEchoesExactlyWhen(content: Content, io: HostIo, host: Host)
    requires Faithful(io) && ToPayload(content, io).Some?
    ensures Echoes(ToPayload(content, io).value, io, host) <==> Troubles(content, io, host)
  {
    match content {
      case Image(w, h, rgba) => assert KeepsPicture(io, w, h, rgba);
      case Files(files) => FilesEchoExactlyWhen(files, io, host);
      case Text(text) => PlainEchoesExactlyWhen(content, text, io, host);
      case Html(_, plain) => PlainEchoesExactlyWhen(content, plain, io, host);
    }
  }

  lemma FilesEchoExactlyWhen(files: seq<LocalFile>, io: HostIo, host: Host)
    requires Faithful(io) && files != []
    ensures Echoes(ToPayload(Files(files), io).value, io, host) <==> !NoClash(Files(files), io)
  {
    FilesComeBackExactlyWhen(files, io);
  }

  lemma PlainEchoesExactlyWhen(content: Content, plain: Bytes, io: HostIo, host: Host)
    requires content == Text(plain) || (content.Html? && content.plain == plain)
    ensures Echoes(ToPayload(content, io).value, io, host) <==> ReadsAsFiles(plain, io, host)
  {
    if Listed(plain, io, host) != [] {
      ListedIsSentAsFiles(plain, io, host);
    }
  }

  // ---------------------------------------------------------------- one device

  /** The poll task: asleep, past the flag, holding a payload, past the comparison. */
  datatype Poll = Asleep | Awake | Loaded(payload: Payload) | Passed(payload: Payload)

  /** The handler: idle, flag set, clipboard written (or not), fingerprint recorded. */
  datatype Apply = NoApply | Applying(payload: Payload) | Written(payload: Payload) | Recorded

  /** `raced` is history: an apply began during a poll and the two have not both ended since. */
  datatype Device = Device(clip: Option<Content>, last: Option<Payload>, poll: Poll, apply: Apply, raced: bool,
                           host: Host)

  function Started(clip: Option<Content>, host: Host): Device {
    Device(clip, None, Asleep, NoApply, false, host)
  }

  function Settle(d: Device): Device {
    if d.poll.Asleep? && d.apply.NoApply? then d.(raced := false) else d
  }

  datatype Move =
    | LocalCopy(content: Option<Content>)
    | Wake
    | Read(readable: bool, builds: bool)
    | Compare
    | Emit
    | Abort
    | Receive(payload: Payload)
    | Write(succeeds: bool)
    | Record
    | Finish

  predicate CanMove(d: Device, m: Move, io: HostIo) {
    match m
    case LocalCopy(_) => true
    case Wake => d.poll.Asleep?
    case Read(_, _) => d.poll.Awake?
    case Compare => d.poll.Loaded?
    case Emit => d.poll.Passed?
    case Abort => !d.poll.Asleep?
    case Receive(payload) => d.apply.NoApply? && ToContent(payload, io).Some?
    case Write(_) => d.apply.Applying? && ToContent(d.apply.payload, io).Some?
    case Record => d.apply.Written?
    case Finish => d.apply.Recorded?
  }

  function After(d: Device, m: Move, io: HostIo): Device
    requires CanMove(d, m, io)
  {
    match m
    case LocalCopy(content) => d.(clip := content)
    case Wake => if d.apply.NoApply? then d.(poll := Awake) else d
    case Read(readable, builds) =>
      if !readable || d.clip.None? || !builds || ToPayload(d.clip.value, io).None? then Settle(d.(poll := Asleep))
      else d.(poll := Loaded(ToPayload(d.clip.value, io).value))
    case Compare =>
      if d.last == Some(d.poll.payload) then Settle(d.(poll := Asleep)) else d.(poll := Passed(d.poll.payload))
    case Emit => Settle(d.(last := Some(d.poll.payload), poll := Asleep))
    case Abort => Settle(d.(poll := Asleep))
    case Receive(payload) => d.(apply := Applying(payload), raced := !d.poll.Asleep?)
    case Write(succeeds) =>
      d.(clip := if succeeds then Applied(d.apply.payload, io, d.host) else d.clip, apply := Written(d.apply.payload))
    case Record => d.(last := Some(d.apply.payload), apply := Recorded)
    case Finish => Settle(d.(apply := NoApply))
  }

  /** What a move costs: the reasons for which a device may have to publish. */
  function Causes(d: Device, m: Move, io: HostIo): nat
    requires CanMove(d, m, io)
  {
    match m
    case LocalCopy(_) => 1
    case Receive(_) => if d.poll.Asleep? then 0 else 2
    case Write(succeeds) => if succeeds && !Echoes(d.apply.payload, io, d.host) then 0 else 1
    case _ => 0
  }

  predicate Pending(d: Device) {
    d.poll.Passed? || (d.poll.Loaded? && d.last != Some(d.poll.payload))
  }

  /** What `last` will be once the running tasks are through. */
  function Expected(d: Device): Option<Payload> {
    if d.apply.Written? then Some(d.apply.payload)
    else if Pending(d) then Some(d.poll.payload)
    else d.last
  }

  predicate Dirty(d: Device, io: HostIo) {
    d.clip.Some? && ToPayload(d.clip.value, io).Some? && ToPayload(d.clip.value, io) != Expected(d)
  }

  /** How many publishes the device may still owe. */
  function Owed(d: Device, io: HostIo): nat {
    if d.raced then 1 + (if d.poll.Asleep? then 0 else 1)
    else (if Pending(d) then 1 else 0) + (if Dirty(d, io) then 1 else 0)
  }

  predicate Tame(d: Device) {
    && (!d.raced ==> d.poll.Asleep? || d.apply.NoApply?)
    && (d.raced ==> !d.poll.Asleep? || !d.apply.NoApply?)
  }

  /** A publish is paid for by what the device owed; what it owes grows by the causes only. */
  lemma MoveAccounts(d: Device, m: Move, io: HostIo)
    requires Tame(d) && CanMove(d, m, io)
    ensures Tame(After(d, m, io))
    ensures Owed(After(d, m, io), io) + (if m.Emit? then 1 else 0) <= Owed(d, io) + Causes(d, m, io)
  {
  }

  // ---------------------------------------------------------------- undisturbed tasks

  predicate CanMoves(d: Device, moves: seq<Move>, io: HostIo)
    decreases |moves|
  {
    moves == [] || (CanMove(d, moves[0], io) && CanMoves(After(d, moves[0], io), moves[1..], io))
  }

  function AfterMoves(d: Device, moves: seq<Move>, io: HostIo): Device
    requires CanMoves(d, moves, io)
    decreases |moves|
  {
    if moves == [] then d else AfterMoves(After(d, moves[0], io), moves[1..], io)
  }

  lemma {:induction false} MovesAppend(d: Device, first: seq<Move>, second: seq<Move>, io: HostIo)
    requires CanMoves(d, first, io) && CanMoves(AfterMoves(d, first, io), second, io)
    ensures CanMoves(d, first + second, io)
    ensures AfterMoves(d, first + second, io) == AfterMoves(AfterMoves(d, first, io), second, io)
    decreases |first|
  {
    if first == [] {
      assert first + second == second;
    } else {
      MovesAppend(After(d, first[0], io), first[1..], second, io);
      assert (first + second)[1..] == first[1..] + second;
    }
  }

  predicate Quiet(d: Device) {
    d.poll.Asleep? && d.apply.NoApply? && !d.raced
  }

  /** The moves of one poll that nothing interrupts. */
  function PollMoves(d: Device, readable: bool, builds: bool, io: HostIo): seq<Move> {
    if !readable || d.clip.None? || !builds || ToPayload(d.clip.value, io).None? then [Wake, Read(readable, builds)]
    else if d.last == ToPayload(d.clip.value, io) then [Wake, Read(readable, builds), Compare]
    else [Wake, Read(readable, builds), Compare, Emit]
  }

  /** The moves of handling one message, from setting the flag to clearing it. */
  function HandleMoves(payload: Payload, succeeds: bool): seq<Move> {
    [Receive(payload), Write(succeeds), Record, Finish]
  }

  lemma MovesOne(d: Device, m: Move, rest: seq<Move>, io: HostIo)
    requires CanMove(d, m, io)
    ensures CanMoves(d, [m] + rest, io) <==> CanMoves(After(d, m, io), rest, io)
    ensures CanMoves(d, [m] + rest, io) ==> AfterMoves(d, [m] + rest, io) == AfterMoves(After(d, m, io), rest, io)
  {
    assert ([m] + rest)[1..] == rest;
  }

  /** An undisturbed poll publishes exactly the payload of a clipboard that differs from the last one emitted. */
  lemma UndisturbedPoll(d: Device, readable: bool, builds: bool, io: HostIo)
    requires Quiet(d)
    ensures var moves := PollMoves(d, readable, builds, io);
            CanMoves(d, moves, io) &&
            AfterMoves(d, moves, io) ==
            if moves[|moves| - 1] == Emit then d.(last := ToPayload(d.clip.value, io)) else d
    ensures PollMoves(d, true, true, io)[|PollMoves(d, true, true, io)| - 1] == Emit <==> Dirty(d, io)
  {
    var moves := PollMoves(d, readable, builds, io);
    var awake := After(d, Wake, io);
    var read := After(awake, moves[1], io);
    MovesOne(d, Wake, moves[1..], io);
    assert moves == [Wake] + moves[1..];
    MovesOne(awake, moves[1], moves[2..], io);
    assert moves[1..] == [moves[1]] + moves[2..];
    if |moves| > 2 {
      var compared := After(read, Compare, io);
      MovesOne(read, Compare, moves[3..], io);
      assert moves[2..] == [Compare] + moves[3..];
      if |moves| > 3 {
        MovesOne(compared, Emit, [], io);
        assert moves[3..] == [Emit] + [];
      }
    }
  }

  lemma UndisturbedApply(d: Device, payload: Payload, succeeds: bool, io: HostIo)
    requires d.apply.NoApply? && ToContent(payload, io).Some?
    ensures CanMoves(d, HandleMoves(payload, succeeds), io)
    ensures AfterMoves(d, HandleMoves(payload, succeeds), io) ==
            d.(clip := if succeeds then Applied(payload, io, d.host) else d.clip,
               last := Some(payload),
               raced := !d.poll.Asleep?)
  {
    var d1 := After(d, Receive(payload), io);
    var d2 := After(d1, Write(succeeds), io);
    var d3 := After(d2, Record, io);
    MovesOne(d3, Finish, [], io);
    MovesOne(d2, Record, [Finish], io);
    MovesOne(d1, Write(succeeds), [Record, Finish], io);
    MovesOne(d, Receive(payload), [Write(succeeds), Record, Finish], io);
    assert [Finish] == [Finish] + [];
    assert [Record, Finish] == [Record] + [Finish];
    assert [Write(succeeds), Record, Finish] == [Write(succeeds)] + [Record, Finish];
    assert HandleMoves(payload, succeeds) == [Receive(payload)] + [Write(succeeds), Record, Finish];
  }

  /** What another device has copied and sent ends up on the clipboard, as it arrives; a text and HTML where
      the host does not read the plain text as paths. */
  lemma CopyArrives(content: Content, d: Device, io: HostIo)
    requires Faithful(io) && ToPayload(content, io).Some? && d.apply.NoApply?
    requires match content
             case Text(text) => Listed(text, io, d.host) == []
             case Html(_, plain) => Listed(plain, io, d.host) == []
             case _ => true
    ensures var payload := ToPayload(content, io).value;
            && CanMoves(d, HandleMoves(payload, true), io)
            && AfterMoves(d, HandleMoves(payload, true), io).clip == ToContent(payload, io)
            && (content.Text? || content.Html? ==> ToContent(payload, io) == Some(content))
  {
    SentContentArrives(content, io);
    var payload := ToPayload(content, io).value;
    UndisturbedApply(d, payload, true, io);
  }

  /** After an undisturbed apply the next poll publishes exactly when the write succeeded and the host
      reads the payload back as another one, or it failed and the clipboard holds something else. */
  lemma EchoExactlyWhen(d: Device, payload: Payload, succeeds: bool, io: HostIo)
    requires Quiet(d) && ToContent(payload, io).Some?
    ensures CanMoves(d, HandleMoves(payload, succeeds), io)
    ensures var applied := AfterMoves(d, HandleMoves(payload, succeeds), io);
            PollMoves(applied, true, true, io)[|PollMoves(applied, true, true, io)| - 1] == Emit <==>
            if succeeds then Echoes(payload, io, d.host) else Differs(d.clip, payload, io)
  {
    UndisturbedApply(d, payload, succeeds, io);
    UndisturbedPoll(AfterMoves(d, HandleMoves(payload, succeeds), io), true, true, io);
  }

  /** A quiet device that has published the text it holds. */
  function Holding(was: Bytes, host: Host, io: HostIo): Device {
    Device(Some(Text(was)), ToPayload(Text(was), io), Asleep, NoApply, false, host)
  }

  /** The device owes nothing, and owes a publish once the payload has been handled. */
  predicate EchoesAt(d: Device, payload: Payload, succeeds: bool, io: HostIo) {
    && !Dirty(d, io) && CanMoves(d, HandleMoves(payload, succeeds), io)
    && Dirty(AfterMoves(d, HandleMoves(payload, succeeds), io), io)
  }

  /** Three ways to an echo: an older sender's text comes back as the current version, a failed write
      makes an already published clipboard look new, and so does inline HTML above the threshold. */
  lemma EchoesHappen(was: Bytes, text: Bytes, html: Bytes, host: Host, io: HostIo)
    requires was != text && |html| > INLINE_HTML_THRESHOLD && Listed(text, io, host) == []
    ensures EchoesAt(Holding(was, host, io), Payload(1, TextBody(text)), true, io)
    ensures EchoesAt(Holding(was, host, io), Payload(CLIPBOARD_PAYLOAD_VERSION, TextBody(text)), false, io)
    ensures EchoesAt(Holding(was, host, io), Payload(CLIPBOARD_PAYLOAD_VERSION, HtmlBody(html, text)), true, io)
  {
    var d := Holding(was, host, io);
    UndisturbedApply(d, Payload(1, TextBody(text)), true, io);
    UndisturbedApply(d, Payload(CLIPBOARD_PAYLOAD_VERSION, TextBody(text)), false, io);
    UndisturbedApply(d, Payload(CLIPBOARD_PAYLOAD_VERSION, HtmlBody(html, text)), true, io);
  }

  /** A fourth: of two files that share a base name the receiver keeps the later one twice. */
  lemma ClashingFilesEcho(first: LocalFile, second: LocalFile, was: Bytes, host: Host, io: HostIo)
    requires Faithful(io) && io.baseName(first.path) == io.baseName(second.path) && first.data != second.data
    ensures EchoesAt(Holding(was, host, io), ToPayload(Files([first, second]), io).value, true, io)
  {
    var content := Files([first, second]);
    assert content.files[0].data != content.files[1].data;
    SentPayloadEchoesExactlyWhen(content, io, host);
    UndisturbedApply(Holding(was, host, io), ToPayload(content, io).value, true, io);
  }

  /** A fifth: a Linux host reads the text "/etc/hosts", or any one line that is the path of a file on its
      disk, as that file. */
  lemma PathTextEchoes(text: Bytes, path: string, was: Bytes, host: Host, io: HostIo)
    requires io.lines(text) == [path] && "/" <= path && host.linux && host.onDisk(path).File?
    ensures EchoesAt(Holding(was, host, io), Payload(CLIPBOARD_PAYLOAD_VERSION, TextBody(text)), true, io)
  {
    assert path[0] == '/' && "copy"[0] == 'c' && "cut"[0] == 'c' && "file://"[0] == 'f';
    assert WithoutVerb([path]) == [path] && PathOf([path][0], io) == Some(path);
    assert ListedPaths([path], io) == [path] && Existing([path], host) == [path] + Existing([], host);
    UndisturbedApply(Holding(was, host, io), Payload(CLIPBOARD_PAYLOAD_VERSION, TextBody(text)), true, io);
  }

  /** A race can cost two publishes: the poll sends what it read before the apply, after which the
      applied content looks new. */
  lemma RaceCostsTwo(was: Bytes, text: Bytes, host: Host, io: HostIo)
    requires was != text && Listed(text, io, host) == []
    ensures var d := Holding(was, host, io);
            var remote := Payload(CLIPBOARD_PAYLOAD_VERSION, TextBody(text));
            var race := [Wake, Read(true, true)] + HandleMoves(remote, true) + [Compare, Emit];
            && !Dirty(d, io) && CanMoves(d, race, io)
            && Dirty(AfterMoves(d, race, io), io) && Quiet(AfterMoves(d, race, io))
  {
    var d := Holding(was, host, io);
    var remote := Payload(CLIPBOARD_PAYLOAD_VERSION, TextBody(text));
    var loaded := After(After(d, Wake, io), Read(true, true), io);
    PairOfMoves(d, Wake, Read(true, true), io);
    UndisturbedApply(loaded, remote, true, io);
    var applied := AfterMoves(loaded, HandleMoves(remote, true), io);
    PairOfMoves(applied, Compare, Emit, io);
    MovesAppend(d, [Wake, Read(true, true)], HandleMoves(remote, true), io);
    MovesAppend(d, [Wake, Read(true, true)] + HandleMoves(remote, true), [Compare, Emit], io);
  }

  lemma PairOfMoves(d: Device, first: Move, second: Move, io: HostIo)
    requires CanMove(d, first, io) && CanMove(After(d, first, io), second, io)
    ensures CanMoves(d, [first, second], io)
    ensures AfterMoves(d, [first, second], io) == After(After(d, first, io), second, io)
  {
    MovesOne(After(d, first, io), second, [], io);
    MovesOne(d, first, [second], io);
    assert [second] + [] == [second] && [first] + [second] == [first, second];
  }

  // ---------------------------------------------------------------- the two tasks as code

  /** One device between suspensions; `clip` is the system clipboard, `published` history. */
  class ClipboardState {
    var clip: Option<Content>
    var lastEmitted: Option<Payload>
    var applyingRemote: bool
    var published: seq<Payload>
    const io: HostIo
    const host: Host

    ghost function Now(): Device
      reads this
    {
      Device(clip, lastEmitted, Asleep, NoApply, false, host)
    }

    constructor (clip: Option<Content>, io: HostIo, host: Host)
      ensures Now() == Started(clip, host) && !applyingRemote && published == []
      ensures this.io == io && this.host == host
    {
      this.clip, lastEmitted, applyingRemote, published, this.io, this.host := clip, None, false, [], io, host;
    }

    /** One round of the poll loop. */
    method WatchOnce(readable: bool, builds: bool)
      modifies this
      ensures applyingRemote == old(applyingRemote)
      ensures applyingRemote ==> Now() == old(Now()) && published == old(published)
      ensures !applyingRemote ==>
                var moves := PollMoves(old(Now()), readable, builds, io);
                && CanMoves(old(Now()), moves, io) && Now() == AfterMoves(old(Now()), moves, io)
                && published == old(published) +
                                (if moves[|moves| - 1] == Emit then [ToPayload(old(clip).value, io).value] else [])
    {
      UndisturbedPoll(Now(), readable, builds, io);
      if applyingRemote {
        return;
      }
      if !readable || clip.None? {
        return;
      }
      var payload := ToPayload(clip.value, io);
      if !builds || payload.None? {
        return;
      }
      if lastEmitted == payload {
        return;
      }
      lastEmitted := payload;
      published := published + [payload.value];
    }

    method HandleMessage(payload: Payload, fetches: bool, writes: bool) returns (ok: bool)
      requires !applyingRemote
      modifies this
      ensures !applyingRemote && published == old(published)
      ensures ok <==> fetches && writes && ToContent(payload, io).Some?
      ensures !fetches || ToContent(payload, io).None? ==> Now() == old(Now())
      ensures fetches && ToContent(payload, io).Some? ==>
                && CanMoves(old(Now()), HandleMoves(payload, writes), io)
                && Now() == AfterMoves(old(Now()), HandleMoves(payload, writes), io)
    {
      var content := ToContent(payload, io);
      if !fetches || content.None? {
        return false;
      }
      UndisturbedApply(Now(), payload, writes, io);
      applyingRemote := true;
      if writes {
        clip := ReadSystem(Offered(content.value), io, host);
      }
      lastEmitted := Some(payload);
      applyingRemote := false;
      return writes;
    }
  }

  // ---------------------------------------------------------------- many devices

  datatype Step = Step(device: DeviceId, move: Move)

  /** `sent` is every payload published so far; the counters are history. */
  datatype State = State(devices: seq<Device>, sent: set<Payload>, publishes: nat, copies: nat, failures: nat,
                         altered: nat, races: nat)

  predicate Enabled(s: State, step: Step, io: HostIo) {
    step.device < |s.devices| && CanMove(s.devices[step.device], step.move, io)
  }

  function Next(s: State, step: Step, io: HostIo): State
    requires Enabled(s, step, io)
  {
    var d, m := s.devices[step.device], step.move;
    State(s.devices[step.device := After(d, m, io)],
          if m.Emit? then s.sent + {d.poll.payload} else s.sent,
          s.publishes + (if m.Emit? then 1 else 0),
          s.copies + (if m.LocalCopy? then 1 else 0),
          s.failures + (if m.Write? && !m.succeeds then 1 else 0),
          s.altered + (if m.Write? && m.succeeds && Echoes(d.apply.payload, io, d.host) then 1 else 0),
          s.races + (if m.Receive? && !d.poll.Asleep? then 1 else 0))
  }

  function Initial(hosts: seq<Host>): State {
    State(seq(|hosts|, k requires 0 <= k < |hosts| => Started(None, hosts[k])), {}, 0, 0, 0, 0, 0)
  }

  predicate IsRun(s: State, steps: seq<Step>, io: HostIo)
    decreases |steps|
  {
    steps == [] || (Enabled(s, steps[0], io) && IsRun(Next(s, steps[0], io), steps[1..], io))
  }

  function Reached(s: State, steps: seq<Step>, io: HostIo): State
    requires IsRun(s, steps, io)
    decreases |steps|
  {
    if steps == [] then s else Reached(Next(s, steps[0], io), steps[1..], io)
  }

  function TotalOwed(devices: seq<Device>, io: HostIo): nat {
    if devices == [] then 0 else Owed(devices[0], io) + TotalOwed(devices[1..], io)
  }

  lemma {:induction false} TotalAfter(devices: seq<Device>, k: nat, d: Device, io: HostIo)
    requires k < |devices|
    ensures TotalOwed(devices[k := d], io) == TotalOwed(devices, io) - Owed(devices[k], io) + Owed(d, io)
  {
    if k > 0 {
      TotalAfter(devices[1..], k - 1, d, io);
      assert devices[k := d][1..] == devices[1..][k - 1 := d];
    } else {
      assert devices[k := d][1..] == devices[1..];
    }
  }

  ghost predicate Inv(s: State, io: HostIo) {
    && (forall k :: 0 <= k < |s.devices| ==> Tame(s.devices[k]))
    && s.publishes + TotalOwed(s.devices, io) <= s.copies + s.failures + s.altered + 2 * s.races
  }

  lemma StepKeepsInv(s: State, step: Step, io: HostIo)
    requires Inv(s, io) && Enabled(s, step, io)
    ensures Inv(Next(s, step, io), io)
  {
    var d := s.devices[step.device];
    MoveAccounts(d, step.move, io);
    TotalAfter(s.devices, step.device, After(d, step.move, io), io);
  }

  lemma {:induction false} NothingOwedAtStart(hosts: seq<Host>, io: HostIo)
    ensures TotalOwed(Initial(hosts).devices, io) == 0
    decreases |hosts|
  {
    if hosts != [] {
      NothingOwedAtStart(hosts[1..], io);
      assert Initial(hosts).devices[1..] == Initial(hosts[1..]).devices;
    }
  }

  lemma {:induction false} RunKeepsInv(s: State, steps: seq<Step>, io: HostIo)
    requires Inv(s, io) && IsRun(s, steps, io)
    ensures Inv(Reached(s, steps, io), io)
    decreases |steps|
  {
    if steps != [] {
      StepKeepsInv(s, steps[0], io);
      RunKeepsInv(Next(s, steps[0], io), steps[1..], io);
    }
  }

  /** In every run, whatever is received and however the tasks interleave, each publish has a cause: a local
      change, a failed clipboard write, a payload the host reads back as another one, or half a race. */
  lemma PublishesAreAccountedFor(hosts: seq<Host>, steps: seq<Step>, io: HostIo)
    requires IsRun(Initial(hosts), steps, io)
    ensures var s := Reached(Initial(hosts), steps, io);
            s.publishes <= s.copies + s.failures + s.altered + 2 * s.races
  {
    NothingOwedAtStart(hosts, io);
    RunKeepsInv(Initial(hosts), steps, io);
  }

  // ---------------------------------------------------------------- a closed network

  /** Only payloads some device has published are received, in any order, any number of times or never. */
  predicate Closed(s: State, steps: seq<Step>, io: HostIo)
    requires IsRun(s, steps, io)
    decreases |steps|
  {
    steps == [] ||
    ((steps[0].move.Receive? ==> steps[0].move.payload in s.sent) && Closed(Next(s, steps[0], io), steps[1..], io))
  }

  /** No host echoes the payload. */
  ghost predicate Settled(payload: Payload, hosts: seq<Host>, io: HostIo) {
    forall k :: 0 <= k < |hosts| ==> !Echoes(payload, io, hosts[k])
  }

  ghost predicate SettledContent(content: Content, hosts: seq<Host>, io: HostIo) {
    ToPayload(content, io).Some? ==> Settled(ToPayload(content, io).value, hosts, io)
  }

  /** Content settles exactly when no host reads its text as files and its own files do not clash. */
  lemma SettlesExactlyWhen(content: Content, hosts: seq<Host>, io: HostIo)
    requires Faithful(io) && ToPayload(content, io).Some?
    ensures SettledContent(content, hosts, io) <==>
            forall k :: 0 <= k < |hosts| ==> !Troubles(content, io, hosts[k])
  {
    forall k | 0 <= k < |hosts|
      ensures Echoes(ToPayload(content, io).value, io, hosts[k]) <==> Troubles(content, io, hosts[k])
    {
      SentPayloadEchoesExactlyWhen(content, io, hosts[k]);
    }
  }

  ghost predicate OwnPayloads(d: Device, hosts: seq<Host>, io: HostIo) {
    && (d.clip.Some? ==> SettledContent(d.clip.value, hosts, io))
    && (d.poll.Loaded? || d.poll.Passed? ==> Settled(d.poll.payload, hosts, io))
    && (d.apply.Applying? ==> Settled(d.apply.payload, hosts, io))
  }

  ghost predicate AllOwn(s: State, hosts: seq<Host>, io: HostIo) {
    && |s.devices| == |hosts|
    && (forall p :: p in s.sent ==> Settled(p, hosts, io))
    && (forall k :: 0 <= k < |hosts| ==> s.devices[k].host == hosts[k] && OwnPayloads(s.devices[k], hosts, io))
  }

  /** What local changes may put on a clipboard. */
  ghost predicate CopiesObey(steps: seq<Step>, may: Content -> bool) {
    forall k :: 0 <= k < |steps| && steps[k].move.LocalCopy? && steps[k].move.content.Some? ==>
      may(steps[k].move.content.value)
  }

  ghost predicate AllSettle(may: Content -> bool, hosts: seq<Host>, io: HostIo) {
    forall content :: may(content) ==> SettledContent(content, hosts, io)
  }

  lemma OwnAfter(d: Device, m: Move, k: nat, hosts: seq<Host>, io: HostIo)
    requires k < |hosts| && d.host == hosts[k] && OwnPayloads(d, hosts, io) && CanMove(d, m, io)
    requires m.LocalCopy? && m.content.Some? ==> SettledContent(m.content.value, hosts, io)
    requires m.Receive? ==> Settled(m.payload, hosts, io)
    ensures After(d, m, io).host == d.host && OwnPayloads(After(d, m, io), hosts, io)
  {
    if m.Write? {
      assert !Echoes(d.apply.payload, io, hosts[k]);
    }
  }

  lemma {:induction false} ClosedRunsAlterNothing(s: State, steps: seq<Step>, may: Content -> bool, hosts: seq<Host>,
                                                  io: HostIo)
    requires AllOwn(s, hosts, io) && IsRun(s, steps, io) && Closed(s, steps, io)
    requires CopiesObey(steps, may) && AllSettle(may, hosts, io)
    ensures Reached(s, steps, io).altered == s.altered
    decreases |steps|
  {
    if steps != [] {
      var at, m := steps[0].device, steps[0].move;
      var d := s.devices[at];
      assert OwnPayloads(d, hosts, io);
      OwnAfter(d, m, at, hosts, io);
      if m.Write? {
        assert !Echoes(d.apply.payload, io, hosts[at]);
      }
      assert CopiesObey(steps[1..], may);
      ClosedRunsAlterNothing(Next(s, steps[0], io), steps[1..], may, hosts, io);
    }
  }

  /** Devices that only hear each other and copy what they may, with clipboard writes succeeding and no
      apply falling into a poll. */
  ghost predicate Orderly(steps: seq<Step>, may: Content -> bool, hosts: seq<Host>, io: HostIo) {
    && IsRun(Initial(hosts), steps, io) && Closed(Initial(hosts), steps, io) && CopiesObey(steps, may)
    && Reached(Initial(hosts), steps, io).failures == 0 && Reached(Initial(hosts), steps, io).races == 0
  }

  ghost predicate NoLoop(steps: seq<Step>, hosts: seq<Host>, io: HostIo)
    requires IsRun(Initial(hosts), steps, io)
  {
    Reached(Initial(hosts), steps, io).publishes <= Reached(Initial(hosts), steps, io).copies
  }

  /** No echo loop: where every content that may be copied settles, such devices publish at most as often
      as a clipboard is changed locally. */
  lemma NoEchoLoop(steps: seq<Step>, may: Content -> bool, hosts: seq<Host>, io: HostIo)
    requires Orderly(steps, may, hosts, io) && AllSettle(may, hosts, io)
    ensures NoLoop(steps, hosts, io)
  {
    PublishesAreAccountedFor(hosts, steps, io);
    ClosedRunsAlterNothing(Initial(hosts), steps, may, hosts, io);
  }

  lemma {:induction false} RunsAppend(s: State, first: seq<Step>, second: seq<Step>, io: HostIo)
    requires IsRun(s, first, io) && IsRun(Reached(s, first, io), second, io)
    ensures IsRun(s, first + second, io)
    ensures Reached(s, first + second, io) == Reached(Reached(s, first, io), second, io)
    ensures Closed(s, first, io) && Closed(Reached(s, first, io), second, io) ==> Closed(s, first + second, io)
    decreases |first|
  {
    if first == [] {
      assert first + second == second;
    } else {
      RunsAppend(Next(s, first[0], io), first[1..], second, io);
      assert (first + second)[1..] == first[1..] + second;
    }
  }

  lemma RunCons(s: State, step: Step, rest: seq<Step>, io: HostIo)
    requires Enabled(s, step, io) && (step.move.Receive? ==> step.move.payload in s.sent)
    requires IsRun(Next(s, step, io), rest, io) && Closed(Next(s, step, io), rest, io)
    ensures IsRun(s, [step] + rest, io) && Closed(s, [step] + rest, io)
    ensures Reached(s, [step] + rest, io) == Reached(Next(s, step, io), rest, io)
  {
    assert ([step] + rest)[1..] == rest;
  }

  /** Four steps in a row. */
  lemma FourSteps(s: State, k: DeviceId, a: Move, b: Move, c: Move, d: Move, io: HostIo) returns (steps: seq<Step>)
    requires Enabled(s, Step(k, a), io) && Enabled(Next(s, Step(k, a), io), Step(k, b), io)
    requires var s2 := Next(Next(s, Step(k, a), io), Step(k, b), io);
             Enabled(s2, Step(k, c), io) && Enabled(Next(s2, Step(k, c), io), Step(k, d), io)
    requires !b.Receive? && !c.Receive? && !d.Receive? && (a.Receive? ==> a.payload in s.sent)
    ensures steps == [Step(k, a), Step(k, b), Step(k, c), Step(k, d)]
    ensures IsRun(s, steps, io) && Closed(s, steps, io)
    ensures Reached(s, steps, io) ==
            Next(Next(Next(Next(s, Step(k, a), io), Step(k, b), io), Step(k, c), io), Step(k, d), io)
  {
    var s1 := Next(s, Step(k, a), io);
    var s2 := Next(s1, Step(k, b), io);
    var s3 := Next(s2, Step(k, c), io);
    RunCons(s3, Step(k, d), [], io);
    RunCons(s2, Step(k, c), [Step(k, d)], io);
    RunCons(s1, Step(k, b), [Step(k, c)] + [Step(k, d)], io);
    RunCons(s, Step(k, a), [Step(k, b)] + ([Step(k, c)] + [Step(k, d)]), io);
    steps := [Step(k, a)] + ([Step(k, b)] + ([Step(k, c)] + [Step(k, d)]));
    assert [Step(k, d)] + [] == [Step(k, d)];
  }

  /** A quiet device that owes a publish polls undisturbed. */
  lemma PublishRun(s: State, k: DeviceId, io: HostIo) returns (steps: seq<Step>)
    requires k < |s.devices| && Quiet(s.devices[k]) && Dirty(s.devices[k], io)
    ensures IsRun(s, steps, io) && Closed(s, steps, io)
    ensures forall i :: 0 <= i < |steps| ==> !steps[i].move.LocalCopy?
    ensures var d := s.devices[k];
            var p := ToPayload(d.clip.value, io);
            Reached(s, steps, io) ==
            s.(devices := s.devices[k := d.(last := p)], sent := s.sent + {p.value}, publishes := s.publishes + 1)
  {
    steps := FourSteps(s, k, Wake, Read(true, true), Compare, Emit, io);
  }

  /** A quiet device handles a payload undisturbed. */
  lemma HandleRun(s: State, k: DeviceId, payload: Payload, io: HostIo) returns (steps: seq<Step>)
    requires k < |s.devices| && Quiet(s.devices[k]) && payload in s.sent && Echoes(payload, io, s.devices[k].host)
    ensures IsRun(s, steps, io) && Closed(s, steps, io)
    ensures forall i :: 0 <= i < |steps| ==> !steps[i].move.LocalCopy?
    ensures var d := s.devices[k];
            Reached(s, steps, io) ==
            s.(devices := s.devices[k := d.(clip := Applied(payload, io, d.host), last := Some(payload))],
               altered := s.altered + 1)
  {
    steps := FourSteps(s, k, Receive(payload), Write(true), Record, Finish, io);
  }

  lemma ChainOfRuns(s: State, a: seq<Step>, b: seq<Step>, c: seq<Step>, d: seq<Step>, io: HostIo)
    requires IsRun(s, a, io) && Closed(s, a, io)
    requires IsRun(Reached(s, a, io), b, io) && Closed(Reached(s, a, io), b, io)
    requires var s2 := Reached(Reached(s, a, io), b, io);
             && IsRun(s2, c, io) && Closed(s2, c, io)
             && IsRun(Reached(s2, c, io), d, io) && Closed(Reached(s2, c, io), d, io)
    ensures IsRun(s, a + (b + (c + d)), io) && Closed(s, a + (b + (c + d)), io)
    ensures Reached(s, a + (b + (c + d)), io) ==
            Reached(Reached(Reached(Reached(s, a, io), b, io), c, io), d, io)
  {
    var s1 := Reached(s, a, io);
    RunsAppend(Reached(s1, b, io), c, d, io);
    RunsAppend(s1, b, c + d, io);
    RunsAppend(s, a, b + (c + d), io);
  }

  /** A device that has just started copies content and publishes it. */
  lemma CopyRun(content: Content, k: DeviceId, hosts: seq<Host>, io: HostIo)
    returns (copy: seq<Step>, publish: seq<Step>)
    requires k < |hosts| && ToPayload(content, io).Some?
    ensures copy == [Step(k, LocalCopy(Some(content)))]
    ensures IsRun(Initial(hosts), copy, io) && Closed(Initial(hosts), copy, io)
    ensures var s1 := Reached(Initial(hosts), copy, io);
            && IsRun(s1, publish, io) && Closed(s1, publish, io)
            && var p := ToPayload(content, io);
               var holder := Started(Some(content), hosts[k]).(last := p);
               Reached(s1, publish, io) == State(Initial(hosts).devices[k := holder], {p.value}, 1, 1, 0, 0, 0)
    ensures forall i :: 0 <= i < |publish| ==> !publish[i].move.LocalCopy?
  {
    copy := [Step(k, LocalCopy(Some(content)))];
    var s1 := Next(Initial(hosts), copy[0], io);
    assert IsRun(s1, copy[1..], io) && Reached(Initial(hosts), copy, io) == s1;
    publish := PublishRun(s1, k, io);
  }

  /** One copy of content that some host echoes, and two publishes. */
  lemma LoopRun(content: Content, from: DeviceId, to: DeviceId, may: Content -> bool, hosts: seq<Host>, io: HostIo)
    returns (steps: seq<Step>)
    requires from < |hosts| && to < |hosts| && from != to && may(content) && ToPayload(content, io).Some?
    requires Echoes(ToPayload(content, io).value, io, hosts[to])
    ensures Orderly(steps, may, hosts, io) && !NoLoop(steps, hosts, io)
  {
    var copy, first := CopyRun(content, from, hosts, io);
    var s2 := Reached(Reached(Initial(hosts), copy, io), first, io);
    var handle := HandleRun(s2, to, ToPayload(content, io).value, io);
    var second := PublishRun(Reached(s2, handle, io), to, io);
    steps := copy + (first + (handle + second));
    ChainOfRuns(Initial(hosts), copy, first, handle, second, io);
  }

  ghost predicate NeverLoops(may: Content -> bool, hosts: seq<Host>, io: HostIo) {
    forall steps :: Orderly(steps, may, hosts, io) ==> NoLoop(steps, hosts, io)
  }

  /** Among two devices or more there is no echo loop exactly when every content that may be copied settles. */
  lemma NoEchoLoopExactlyWhen(may: Content -> bool, hosts: seq<Host>, io: HostIo)
    requires |hosts| > 1
    ensures NeverLoops(may, hosts, io) <==> AllSettle(may, hosts, io)
  {
    if AllSettle(may, hosts, io) {
      forall steps | Orderly(steps, may, hosts, io) ensures NoLoop(steps, hosts, io) {
        NoEchoLoop(steps, may, hosts, io);
      }
    } else {
      var content :| may(content) && !SettledContent(content, hosts, io);
      var to: nat :| to < |hosts| && Echoes(ToPayload(content, io).value, io, hosts[to]);
      var steps := LoopRun(content, if to == 0 then 1 else 0, to, may, hosts, io);
    }
  }

  /** Nothing that may be copied is read as files by some host, and no list of files that may be copied clashes. */
  ghost predicate Harmless(may: Content -> bool, hosts: seq<Host>, io: HostIo) {
    forall content :: may(content) && ToPayload(content, io).Some? ==>
      forall k :: 0 <= k < |hosts| ==> !Troubles(content, io, hosts[k])
  }

  /** The same, by what the contents are. */
  lemma NoEchoLoopExactlyWhenHarmless(may: Content -> bool, hosts: seq<Host>, io: HostIo)
    requires Faithful(io) && |hosts| > 1
    ensures NeverLoops(may, hosts, io) <==> Harmless(may, hosts, io)
  {
    NoEchoLoopExactlyWhen(may, hosts, io);
    forall content | ToPayload(content, io).Some?
      ensures SettledContent(content, hosts, io) <==>
              forall k :: 0 <= k < |hosts| ==> !Troubles(content, io, hosts[k])
    {
      SettlesExactlyWhen(content, hosts, io);
    }
  }
}
