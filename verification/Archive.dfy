/** The release bundle: one closed list of members, laid end to end and read back by arithmetic. */
module Archive {
  import opened Prelude
  import opened Ustar

  const RECORD := 10240
  const MAX_BUNDLE := 64 * 1024 * 1024 * 1024
  const MAX_MEMBERS := 128
  const CHUNK := 1024 * 1024

  predicate Zero(s: Bytes) {
    forall i :: 0 <= i < |s| ==> s[i] == 0
  }

  /** The size rounded up to whole blocks. */
  function Blocks(size: int): (n: int)
    ensures size <= n
  {
    (size + 511) / 512 * 512
  }

  // --------------------------------------------------------------------------------------------
  // Writing
  // --------------------------------------------------------------------------------------------

  datatype Entry = Entry(name: Bytes, directory: bool, content: Bytes)

  predicate Fitting(e: Entry) {
    Writable(e.name, e.directory, |e.content|)
  }

  function Piece(e: Entry): Bytes
    requires Fitting(e)
  {
    Header(e.name, e.directory, |e.content|) + e.content + Zeros(Blocks(|e.content|) - |e.content|)
  }

  function PiecesOf(entries: seq<Entry>): (pieces: seq<Bytes>)
    requires forall i :: 0 <= i < |entries| ==> Fitting(entries[i])
    ensures |pieces| == |entries|
  {
    seq(|entries|, i requires 0 <= i < |entries| => Piece(entries[i]))
  }

  /** Two zero blocks, then zeros up to a whole record. */
  function Trailer(used: nat): nat {
    1024 + (RECORD - (used + 1024) % RECORD) % RECORD
  }

  function Archived(entries: seq<Entry>): Bytes
    requires forall i :: 0 <= i < |entries| ==> Fitting(entries[i])
  {
    var body := Join(PiecesOf(entries));
    body + Zeros(Trailer(|body|))
  }

  lemma PaddingRounds(n: nat)
    ensures var remainder := n % 512;
      Blocks(n) - n == (512 - remainder) % 512 == if remainder > 0 then 512 - remainder else 0
  {
  }

  /** A header, the content, and zeros to the end of the last block. */
  method AddFile(file: Bytes, e: Entry) returns (longer: Bytes)
    requires Fitting(e)
    ensures longer == file + Piece(e)
    ensures longer == file + Header(e.name, e.directory, |e.content|) + e.content + seq((512 - |e.content| % 512) % 512, _ => 0)
  {
    hide Header, Writable, Blocks;
    var header := Header(e.name, e.directory, |e.content|);
    var remainder := |e.content| % 512;
    var padding := if remainder > 0 then 512 - remainder else 0;
    PaddingRounds(|e.content|);
    longer := file + header + e.content + Zeros(padding);
    assert longer == file + (header + e.content + Zeros(padding));
  }

  lemma PaddingFills(n: nat)
    ensures (n + (RECORD - n % RECORD) % RECORD) % RECORD == 0
  {
    var q, r := n / RECORD, n % RECORD;
    assert n == RECORD * q + r;
    if r > 0 {
      assert n + (RECORD - r) == RECORD * (q + 1);
    }
  }

  method Close(file: Bytes) returns (closed: Bytes)
    ensures closed == file + Zeros(Trailer(|file|))
    ensures 1024 <= |closed| - |file| < 11_264 && |closed| % 10_240 == 0
    ensures closed == file + seq(|closed| - |file|, _ => 0)
  {
    closed := file + Zeros(1024);
    var remainder := |closed| % RECORD;
    PaddingFills(|closed|);
    if remainder > 0 {
      closed := closed + Zeros(RECORD - remainder);
    }
  }

  method WriteBundle(entries: seq<Entry>) returns (file: Bytes)
    requires forall i :: 0 <= i < |entries| ==> Fitting(entries[i])
    ensures file == Archived(entries)
    ensures var body := Join(PiecesOf(entries));
      && 1024 <= |file| - |body| < 11_264 && |file| % 10_240 == 0
      && file == body + seq(|file| - |body|, _ => 0)
  {
    hide Piece, Trailer;
    file := [];
    var i := 0;
    while i < |entries|
      invariant 0 <= i <= |entries| && file == Join(PiecesOf(entries)[..i])
    {
      file := AddFile(file, entries[i]);
      assert PiecesOf(entries)[..i + 1][..i] == PiecesOf(entries)[..i];
      i := i + 1;
    }
    assert PiecesOf(entries)[..i] == PiecesOf(entries);
    file := Close(file);
  }

  // --------------------------------------------------------------------------------------------
  // The member list of an archive
  // --------------------------------------------------------------------------------------------

  datatype Member = Member(info: Info, offset: int, data: int)

  // Long names, sparse files and extended headers: their data never starts right after their header.
  const EXTENSIONS: set<byte> := {0x4b, 0x4c, 0x53, 0x58, 0x67, 0x78}

  // Links, devices, directories and queues carry no data.
  const DATALESS: set<byte> := {0x31, 0x32, 0x33, 0x34, 0x35, 0x36}

  function Next(offset: nat, info: Info): nat
    requires info.size >= 0
  {
    offset + HEADER + if info.kind in DATALESS then 0 else Blocks(info.size)
  }

  /** The members from an offset on; a block that is no header ends them. */
  function MembersFrom(file: Bytes, offset: nat): Option<seq<Member>>
    decreases |file| - offset
  {
    if offset > |file| then None
    else if offset + HEADER > |file| then if offset == 0 then None else Some([])
    else
      var block := file[offset..offset + HEADER];
      match ReadHeader(block)
      case None => if offset > 0 || Zero(block) then Some([]) else None
      case Some(info) =>
        if info.kind in EXTENSIONS || info.size < 0 then None
        else
          match MembersFrom(file, Next(offset, info))
          case None => None
          case Some(rest) => Some([Member(info, offset, offset + HEADER)] + rest)
  }

  /** Where the next header is looked for: behind the data, if the kind has any. */
  function Behind(m: Member): int {
    m.data + if 0x31 <= m.info.kind <= 0x36 then 0 else Blocks(m.info.size)
  }

  /** A member that is listed: its header is there, and is no extension of another. */
  predicate Listed(file: Bytes, offset: int, m: Member) {
    && m.offset == offset >= 0 && m.data == offset + 512 <= |file|
    && ReadHeader(file[offset..offset + 512]) == Some(m.info)
    && m.info.size >= 0 && m.info.kind !in {0x4b, 0x4c, 0x53, 0x58, 0x67, 0x78}
  }

  /** No room for a header, or a block that is none; at the very beginning only zeros. */
  predicate Over(file: Bytes, offset: int) {
    && 0 <= offset <= |file|
    && if offset + 512 > |file| then offset > 0
       else ReadHeader(file[offset..offset + 512]).None?
            && (offset == 0 ==> forall k :: 0 <= k < 512 ==> file[k] == 0)
  }

  lemma NothingListed(file: Bytes, offset: nat)
    ensures MembersFrom(file, offset) == Some([]) <==> Over(file, offset)
  {
    hide ReadHeader;
    if offset + 512 <= |file| {
      var block := file[offset..offset + 512];
      assert forall k :: 0 <= k < 512 ==> block[k] == file[offset + k];
      assert offset == 0 ==> (Zero(block) <==> forall k :: 0 <= k < 512 ==> file[k] == 0);
    }
  }

  lemma FirstListed(file: Bytes, offset: nat, m: Member, rest: seq<Member>)
    ensures MembersFrom(file, offset) == Some([m] + rest) <==>
      Listed(file, offset, m) && Behind(m) >= 0 && MembersFrom(file, Behind(m)) == Some(rest)
  {
    hide ReadHeader;
    assert ([m] + rest)[0] == m && ([m] + rest)[1..] == rest;
    if MembersFrom(file, offset) == Some([m] + rest) {
      assert m.data == offset + 512 && Behind(m) == Next(offset, m.info);
      var found := MembersFrom(file, Behind(m));
      assert found.Some?;
      assert [m] + rest == [m] + found.value;
      assert ([m] + found.value)[1..] == found.value;
    }
    if Listed(file, offset, m) {
      assert Behind(m) == Next(offset, m.info);
      assert m == Member(m.info, offset, offset + 512);
    }
  }

  /** Where member i has to begin. */
  function Place(offset: int, members: seq<Member>, i: nat): int
    requires i <= |members|
  {
    if i == 0 then offset else Behind(members[i - 1])
  }

  /** Headers that can be read, each where the one before it ends, until the archive is over. */
  predicate Chain(file: Bytes, offset: int, members: seq<Member>) {
    && (forall i :: 0 <= i < |members| ==> Listed(file, Place(offset, members, i), members[i]))
    && Over(file, Place(offset, members, |members|))
  }

  /** The member list of an archive is the one chain of headers in it, if there is one. */
  lemma {:induction false} ListsExactly(file: Bytes, offset: nat, members: seq<Member>)
    ensures MembersFrom(file, offset) == Some(members) <==> Chain(file, offset, members)
    decreases |members|
  {
    if members == [] {
      NothingListed(file, offset);
    } else {
      var m, rest := members[0], members[1..];
      assert members == [m] + rest;
      hide *;
      FirstListed(file, offset, m, rest);
      ListedFits(file, offset, m);
      ChainSplits(file, offset, m, rest);
      if Behind(m) >= 0 { ListsExactly(file, Behind(m), rest); }
    }
  }

  lemma ChainSplits(file: Bytes, offset: int, m: Member, rest: seq<Member>)
    ensures Chain(file, offset, [m] + rest) <==> Listed(file, offset, m) && Chain(file, Behind(m), rest)
  {
    hide Listed, Behind, Over;
    var members := [m] + rest;
    forall i: nat | i <= |rest| ensures Place(Behind(m), rest, i) == Place(offset, members, i + 1) {
      if i > 0 { assert members[i] == rest[i - 1]; }
    }
    assert Place(offset, members, 0) == offset && members[0] == m;
    hide Place;
    if Chain(file, offset, members) {
      assert Listed(file, Place(offset, members, 0), members[0]);
      forall i | 0 <= i < |rest| ensures Listed(file, Place(Behind(m), rest, i), rest[i]) {
        assert Listed(file, Place(offset, members, i + 1), members[i + 1]);
      }
    }
    if Listed(file, offset, m) && Chain(file, Behind(m), rest) {
      forall i | 0 <= i < |members| ensures Listed(file, Place(offset, members, i), members[i]) {
        if i > 0 { assert Listed(file, Place(Behind(m), rest, i - 1), rest[i - 1]); }
      }
    }
  }

  lemma ListedFits(file: Bytes, offset: int, m: Member)
    ensures Listed(file, offset, m) ==> offset >= 0 && Behind(m) >= 0
  {
    hide ReadHeader;
  }

  // --------------------------------------------------------------------------------------------
  // Reading
  // --------------------------------------------------------------------------------------------

  predicate Metadata(info: Info, directory: bool) {
    && info.uid == 0 && info.gid == 0 && info.user == [] && info.group == [] && info.mtime == 0
    && info.major == 0 && info.minor == 0 && info.link == []
    && if directory then info.kind == DIRECTORY && info.mode == 0x1c0 && info.size == 0
       else info.kind in {REGULAR, OLD_REGULAR, CONTIGUOUS} && info.mode == 0x100 && 0 < info.size <= MAX_BUNDLE
  }

  /** The expected names in order, none twice. */
  predicate Named(members: seq<Member>, expected: seq<Bytes>) {
    && |members| == |expected|
    && (forall i :: 0 <= i < |members| ==> members[i].info.name == expected[i])
    && (forall i, j :: 0 <= i < j < |members| ==> members[i].info.name != members[j].info.name)
  }

  /** The member lies at the offset, with its magic, its metadata and zero padding. */
  predicate Placed(file: Bytes, m: Member, offset: nat, directory: bool) {
    && m.info.size >= 0
    && m.offset == offset && m.data == offset + HEADER
    && offset + MAGIC_OFFSET + 8 <= |file| && file[offset + MAGIC_OFFSET..offset + MAGIC_OFFSET + 8] == MAGIC
    && Metadata(m.info, directory)
    && m.data + Blocks(m.info.size) <= |file|
    && Zero(file[m.data + m.info.size..m.data + Blocks(m.info.size)])
  }

  /** Where the members before `i` end. */
  function End(members: seq<Member>, i: nat): (end: nat)
    requires i <= |members|
  {
    if i == 0 then 0
    else End(members, i - 1) + HEADER + if members[i - 1].info.size < 0 then 0 else Blocks(members[i - 1].info.size)
  }

  /** At least two blocks, and whole ones. */
  predicate Whole(trailing: int) {
    trailing >= 1024 && trailing % 512 == 0
  }

  predicate Trails(file: Bytes, end: nat) {
    end <= |file| && Whole(|file| - end) && Zero(file[end..])
  }

  predicate PlacedAt(file: Bytes, members: seq<Member>, directories: set<Bytes>, i: nat)
    requires i < |members|
  {
    Placed(file, members[i], End(members, i), members[i].info.name in directories)
  }

  predicate AllPlaced(file: Bytes, members: seq<Member>, directories: set<Bytes>, n: nat)
    requires n <= |members|
  {
    forall i :: 0 <= i < n ==> PlacedAt(file, members, directories, i)
  }

  predicate Accepts(file: Bytes, members: seq<Member>, expected: seq<Bytes>, directories: set<Bytes>) {
    && 0 < |members| <= MAX_MEMBERS
    && Named(members, expected)
    && AllPlaced(file, members, directories, |members|)
    && Trails(file, End(members, |members|))
  }

  /** What the member's file holds; a directory holds nothing. */
  function Content(file: Bytes, m: Member): Bytes {
    if 0 <= m.data && 0 <= m.info.size && m.data + m.info.size <= |file|
    then file[m.data..m.data + m.info.size] else []
  }

  datatype Node = Node(name: Bytes, directory: bool, content: Bytes)

  function NodeOf(file: Bytes, m: Member, directories: set<Bytes>): Node {
    Node(m.info.name, m.info.name in directories, Content(file, m))
  }

  function Extracted(file: Bytes, members: seq<Member>, directories: set<Bytes>): (nodes: seq<Node>)
    ensures |nodes| == |members|
  {
    seq(|members|, i requires 0 <= i < |members| => NodeOf(file, members[i], directories))
  }

  /** Copies a member out in chunks; the disk may take less than offered, or fail. */
  method ExtractFile(file: Bytes, start: nat, size: nat, sound: bool) returns (out: Bytes, ok: bool)
    requires start + size <= |file|
    ensures ok ==> out == file[start..start + size]
    ensures sound ==> ok
  {
    out := [];
    var remaining := size;
    while remaining > 0
      invariant 0 <= remaining <= size
      invariant out == file[start..start + size - remaining]
    {
      var at := start + size - remaining;
      var chunk := file[at..at + if remaining < CHUNK then remaining else CHUNK];
      var view := chunk;
      while view != []
        invariant out + view == file[start..at + |chunk|]
        decreases |view|
      {
        var written: int :| written <= |view| && (sound ==> written > 0);
        if written <= 0 { return out, false; }
        ghost var before := out + view;
        out := out + view[..written];
        view := view[written..];
        assert out + view == before;
      }
      remaining := remaining - |chunk|;
    }
    ok := true;
  }

  /** The zeros after the last member, chunk by chunk. */
  method CheckTrailer(file: Bytes, end: nat) returns (ok: bool)
    requires end <= |file|
    ensures ok <==> Trails(file, end)
  {
    var trailing := |file| - end;
    if trailing < 1024 || trailing % 512 != 0 { return false; }
    var position := end;
    while position < |file|
      invariant end <= position <= |file|
      invariant forall k :: end <= k < position ==> file[k] == 0
    {
      var size := if |file| - position < CHUNK then |file| - position else CHUNK;
      var chunk := file[position..position + size];
      if !Zero(chunk) {
        var i :| 0 <= i < |chunk| && chunk[i] != 0;
        assert file[end..][position - end + i] != 0;
        return false;
      }
      forall k | position <= k < position + size ensures file[k] == 0 { assert chunk[k - position] == 0; }
      position := position + size;
    }
    return true;
  }

  method CheckMember(file: Bytes, m: Member, expectedOffset: nat, directory: bool) returns (ok: bool)
    ensures ok <==> Placed(file, m, expectedOffset, directory)
  {
    hide Metadata, Blocks;
    if m.info.size < 0 || m.offset != expectedOffset || m.data != m.offset + HEADER { return false; }
    if m.offset + MAGIC_OFFSET + 8 > |file| { return false; }
    if file[m.offset + MAGIC_OFFSET..m.offset + MAGIC_OFFSET + 8] != MAGIC { return false; }
    if !Metadata(m.info, directory) { return false; }
    var nextOffset := m.data + Blocks(m.info.size);
    if nextOffset > |file| { return false; }
    return Zero(file[m.data + m.info.size..nextOffset]);
  }

  /** Unpacks the members in order, each where the one before ended. */
  method ExtractMembers(file: Bytes, members: seq<Member>, directories: set<Bytes>, sound: bool)
      returns (r: Option<seq<Node>>)
    ensures r.Some? ==>
      AllPlaced(file, members, directories, |members|) && r.value == Extracted(file, members, directories)
    ensures sound && r.None? ==> !AllPlaced(file, members, directories, |members|)
  {
    hide Placed, Metadata, Blocks, Content;
    var nodes: seq<Node> := [];
    var expectedOffset := 0;
    var i := 0;
    while i < |members|
      invariant 0 <= i <= |members| && expectedOffset == End(members, i)
      invariant AllPlaced(file, members, directories, i)
      invariant |nodes| == i && forall j :: 0 <= j < i ==> nodes[j] == NodeOf(file, members[j], directories)
    {
      var m := members[i];
      var directory := m.info.name in directories;
      var ok := CheckMember(file, m, expectedOffset, directory);
      if !ok {
        assert !PlacedAt(file, members, directories, i);
        return None;
      }
      PlacedFacts(file, m, expectedOffset, directory);
      var content: Bytes := [];
      if !directory {
        content, ok := ExtractFile(file, m.data, m.info.size, sound);
        if !ok { return None; }
      }
      nodes := nodes + [Node(m.info.name, directory, content)];
      expectedOffset := m.data + Blocks(m.info.size);
      assert PlacedAt(file, members, directories, i);
      i := i + 1;
    }
    return Some(nodes);
  }

  /** Verifies and unpacks whatever member list the archive library reports. */
  method ExtractOpenedBundle(file: Bytes, members: seq<Member>, expected: seq<Bytes>, directories: set<Bytes>, sound: bool)
      returns (r: Option<seq<Node>>)
    ensures r.Some? ==> Accepts(file, members, expected, directories) && r.value == Extracted(file, members, directories)
    ensures sound ==> (r.Some? <==> Accepts(file, members, expected, directories))
  {
    hide AllPlaced, Named, Trails, Extracted;
    if !(0 < |members| <= MAX_MEMBERS) || !Named(members, expected) { return None; }
    var nodes := ExtractMembers(file, members, directories, sound);
    if nodes.None? { return None; }
    var end := End(members, |members|);
    TrailsInside(file, end);
    if end > |file| { return None; }
    var ok := CheckTrailer(file, end);
    return if ok then nodes else None;
  }

  lemma PlacedFacts(file: Bytes, m: Member, offset: nat, directory: bool)
    requires Placed(file, m, offset, directory)
    ensures m.info.size >= 0 && m.data == offset + HEADER && m.data + m.info.size <= |file|
    ensures directory ==> Content(file, m) == []
    ensures Content(file, m) == file[m.data..m.data + m.info.size]
  {
  }

  lemma TrailsInside(file: Bytes, end: nat)
    ensures Trails(file, end) ==> end <= |file|
  {
  }

  // --------------------------------------------------------------------------------------------
  // Acceptance in full
  // --------------------------------------------------------------------------------------------

  /** The metadata a member may carry: root's, without time and names; a directory 0700 and empty; a file
      0400, and neither empty nor beyond 64 GiB. */
  lemma MetadataTells(info: Info, directory: bool)
    ensures Metadata(info, directory) <==>
      && info.uid == 0 && info.gid == 0 && info.user == [] && info.group == []
      && info.mtime == 0 && info.major == 0 && info.minor == 0 && info.link == []
      && (directory ==> info.kind == 0x35 && info.mode == 0x1c0 && info.size == 0)
      && (!directory ==> info.kind in {0x30, 0x00, 0x37} && info.mode == 0x100 && 0 < info.size <= 68_719_476_736)
  {
  }

  /** Rounded up to a multiple of 512, and no further. */
  lemma BlocksTell(size: nat)
    ensures size <= Blocks(size) < size + 512 && Blocks(size) % 512 == 0
  {
  }

  /** The member lies where it says, and begins the file or follows the one before it. */
  predicate Follows(file: Bytes, members: seq<Member>, directories: set<Bytes>, i: nat)
    requires i < |members|
  {
    && 0 <= members[i].offset && Placed(file, members[i], members[i].offset, members[i].info.name in directories)
    && members[i].offset == if i == 0 then 0 else members[i - 1].data + Blocks(members[i - 1].info.size)
  }

  lemma {:induction false} FollowersEnd(file: Bytes, members: seq<Member>, directories: set<Bytes>, i: nat)
    requires i <= |members| && forall k :: 0 <= k < |members| ==> Follows(file, members, directories, k)
    ensures i < |members| ==> End(members, i) == members[i].offset
    ensures i > 0 ==> End(members, i) == members[i - 1].data + Blocks(members[i - 1].info.size)
  {
    hide Blocks;
    if i < |members| { assert Follows(file, members, directories, i); }
    if i > 0 {
      FollowersEnd(file, members, directories, i - 1);
      assert Follows(file, members, directories, i - 1);
    }
  }

  lemma PlacedFollow(file: Bytes, members: seq<Member>, directories: set<Bytes>, i: nat)
    requires i < |members| && AllPlaced(file, members, directories, |members|)
    ensures Follows(file, members, directories, i)
    ensures End(members, i + 1) == members[i].data + Blocks(members[i].info.size)
  {
    hide Blocks, Metadata, Zero;
    assert PlacedAt(file, members, directories, i);
    if i > 0 { assert PlacedAt(file, members, directories, i - 1); }
  }

  lemma PlacedAllFollow(file: Bytes, members: seq<Member>, directories: set<Bytes>)
    ensures AllPlaced(file, members, directories, |members|) <==>
      forall i :: 0 <= i < |members| ==> Follows(file, members, directories, i)
  {
    if AllPlaced(file, members, directories, |members|) {
      forall i | 0 <= i < |members| ensures Follows(file, members, directories, i) {
        PlacedFollow(file, members, directories, i);
      }
    }
    if forall i :: 0 <= i < |members| ==> Follows(file, members, directories, i) {
      forall i | 0 <= i < |members| ensures PlacedAt(file, members, directories, i) {
        FollowersEnd(file, members, directories, i);
        assert Follows(file, members, directories, i);
      }
    }
  }

  /** One member by its bytes: it begins where the blocks of the one before it end, with the magic at 257,
      512 bytes before its data, and has zeros behind them up to the next multiple of 512. */
  lemma FollowsTells(file: Bytes, members: seq<Member>, directories: set<Bytes>, i: nat)
    requires i < |members|
    ensures Follows(file, members, directories, i) <==>
      var m := members[i];
      && 0 <= m.info.size && 0 <= m.offset && m.data == m.offset + 512 && m.data + Blocks(m.info.size) <= |file|
      && m.offset == (if i == 0 then 0 else members[i - 1].data + Blocks(members[i - 1].info.size))
      && file[m.offset + 257..m.offset + 265] == [0x75, 0x73, 0x74, 0x61, 0x72, 0x00, 0x30, 0x30]
      && (forall k :: m.data + m.info.size <= k < m.data + Blocks(m.info.size) ==> file[k] == 0)
      && Metadata(m.info, m.info.name in directories)
  {
    hide Blocks, Metadata;
    var m := members[i];
    if 0 <= m.info.size && 0 <= m.data && m.data + Blocks(m.info.size) <= |file| {
      var a, b := m.data + m.info.size, m.data + Blocks(m.info.size);
      assert forall k :: a <= k < b ==> file[k] == file[a..b][k - a];
    }
  }

  /** A list of at most 128 members, by name as expected and each once, is accepted exactly when the first
      begins the file, every other follows the one before it, and zeros end the file: at least 1024,
      and whole blocks. */
  lemma AcceptanceInFull(file: Bytes, members: seq<Member>, expected: seq<Bytes>, directories: set<Bytes>)
    ensures Accepts(file, members, expected, directories) <==>
      && 0 < |members| <= 128 && |members| == |expected|
      && (forall i :: 0 <= i < |members| ==> members[i].info.name == expected[i])
      && (forall i, j :: 0 <= i < j < |members| ==> members[i].info.name != members[j].info.name)
      && (forall i :: 0 <= i < |members| ==> Follows(file, members, directories, i))
      && (var end := members[|members| - 1].data + Blocks(members[|members| - 1].info.size);
          && 0 <= end && end + 1024 <= |file| && (|file| - end) % 512 == 0
          && forall k :: end <= k < |file| ==> file[k] == 0)
  {
    hide Blocks, Follows, End;
    PlacedAllFollow(file, members, directories);
    ZerosByByte(file, End(members, |members|));
    if AllPlaced(file, members, directories, |members|) && members != [] {
      FollowersEnd(file, members, directories, |members|);
    }
    hide AllPlaced, Trails;
  }

  /** What is extracted from an accepted archive: one node per member, in order, with the bytes that stand
      behind its header. */
  lemma ExtractedTells(file: Bytes, members: seq<Member>, expected: seq<Bytes>, directories: set<Bytes>, i: nat)
    requires Accepts(file, members, expected, directories) && i < |members|
    ensures 0 <= members[i].offset && members[i].offset + 512 + members[i].info.size <= |file|
    ensures 0 <= members[i].info.size && (expected[i] in directories ==> members[i].info.size == 0)
    ensures Extracted(file, members, directories)[i] ==
      Node(expected[i], expected[i] in directories,
           file[members[i].offset + 512..members[i].offset + 512 + members[i].info.size])
  {
    hide Blocks, Zero;
    assert PlacedAt(file, members, directories, i);
  }

  lemma ZerosByByte(file: Bytes, end: nat)
    ensures Trails(file, end) <==>
      end + 1024 <= |file| && (|file| - end) % 512 == 0 && forall k :: end <= k < |file| ==> file[k] == 0
  {
    if end <= |file| { assert forall k :: end <= k < |file| ==> file[k] == file[end..][k - end]; }
  }

  // --------------------------------------------------------------------------------------------
  // An accepted archive is tiled
  // --------------------------------------------------------------------------------------------

  /** A header with its magic, the content, and zeros to the block's end. */
  predicate IsTile(tile: Bytes, content: Bytes) {
    && |tile| == HEADER + Blocks(|content|)
    && tile[MAGIC_OFFSET..MAGIC_OFFSET + 8] == MAGIC
    && tile[HEADER..HEADER + |content|] == content
    && Zero(tile[HEADER + |content|..])
  }

  predicate TileFor(file: Bytes, m: Member, tile: Bytes, at: nat) {
    && m.info.size == |Content(file, m)| && IsTile(tile, Content(file, m))
    && m.offset == at && m.data == at + HEADER
  }

  /** The tiles, one per member and in order, followed by at least two zero blocks, are the file. */
  predicate Tiled(file: Bytes, members: seq<Member>, tiles: seq<Bytes>) {
    && |tiles| == |members|
    && (forall i :: 0 <= i < |tiles| ==> TileFor(file, members[i], tiles[i], |Join(tiles[..i])|))
    && |Join(tiles)| <= |file|
    && file == Join(tiles) + Zeros(|file| - |Join(tiles)|)
    && Whole(|file| - |Join(tiles)|)
  }

  predicate AllMetadata(members: seq<Member>, directories: set<Bytes>) {
    forall i :: 0 <= i < |members| ==> Metadata(members[i].info, members[i].info.name in directories)
  }

  function Cuts(file: Bytes, members: seq<Member>): (tiles: seq<Bytes>)
    requires forall i :: 0 <= i <= |members| ==> End(members, i) <= |file|
    ensures |tiles| == |members|
  {
    seq(|members|, i requires 0 <= i < |members| => file[End(members, i)..End(members, i + 1)])
  }

  lemma {:induction false} CutsJoin(file: Bytes, members: seq<Member>, i: nat)
    requires i <= |members| && forall k :: 0 <= k <= |members| ==> End(members, k) <= |file|
    ensures Join(Cuts(file, members)[..i]) == file[..End(members, i)]
  {
    if i > 0 {
      CutsJoin(file, members, i - 1);
      assert Cuts(file, members)[..i][..i - 1] == Cuts(file, members)[..i - 1];
      assert file[..End(members, i)] ==
        file[..End(members, i - 1)] + file[End(members, i - 1)..End(members, i)];
    }
  }

  lemma EndsInside(file: Bytes, members: seq<Member>, expected: seq<Bytes>, directories: set<Bytes>)
    requires Accepts(file, members, expected, directories)
    ensures forall i :: 0 <= i <= |members| ==> End(members, i) <= |file|
  {
    forall i | 0 < i <= |members| ensures End(members, i) <= |file| {
      assert PlacedAt(file, members, directories, i - 1);
    }
  }

  lemma SubSlice(s: Bytes, at: nat, size: nat, a: nat, b: nat)
    requires at + size <= |s| && a <= b <= size
    ensures s[at..at + size][a..b] == s[at + a..at + b]
  {
    var x, y := s[at..at + size][a..b], s[at + a..at + b];
    assert |x| == |y|;
    forall k | 0 <= k < |x| ensures x[k] == y[k] {
      assert x[k] == s[at..at + size][a + k];
    }
  }

  lemma PlacedIsTile(file: Bytes, m: Member, offset: nat, directory: bool)
    requires Placed(file, m, offset, directory)
    ensures TileFor(file, m, file[offset..offset + HEADER + Blocks(m.info.size)], offset)
  {
    hide Blocks, Metadata;
    var size := HEADER + Blocks(m.info.size);
    SubSlice(file, offset, size, MAGIC_OFFSET, MAGIC_OFFSET + 8);
    SubSlice(file, offset, size, HEADER, HEADER + m.info.size);
    SubSlice(file, offset, size, HEADER + m.info.size, size);
  }

  lemma CutIsTile(file: Bytes, members: seq<Member>, expected: seq<Bytes>, directories: set<Bytes>, i: nat)
    requires Accepts(file, members, expected, directories) && i < |members|
    ensures forall k :: 0 <= k <= |members| ==> End(members, k) <= |file|
    ensures TileFor(file, members[i], Cuts(file, members)[i], |Join(Cuts(file, members)[..i])|)
  {
    hide Blocks, Zero, Metadata, Placed, TileFor, Trails, Join, Named;
    EndsInside(file, members, expected, directories);
    CutsJoin(file, members, i);
    var directory := members[i].info.name in directories;
    assert PlacedAt(file, members, directories, i);
    PlacedFacts(file, members[i], End(members, i), directory);
    PlacedIsTile(file, members[i], End(members, i), directory);
  }

  /** No gap, no overlap and no byte left over. */
  lemma AcceptedIsTiled(file: Bytes, members: seq<Member>, expected: seq<Bytes>, directories: set<Bytes>)
    requires Accepts(file, members, expected, directories)
    ensures exists tiles :: Tiled(file, members, tiles)
  {
    hide Blocks, Zero, Metadata, IsTile, Content, Placed, TileFor, Whole, Join, End, Cuts;
    EndsInside(file, members, expected, directories);
    var tiles := Cuts(file, members);
    var n := |members|;
    CutsJoin(file, members, n);
    assert tiles[..n] == tiles;
    forall i | 0 <= i < n ensures TileFor(file, members[i], tiles[i], |Join(tiles[..i])|) {
      CutIsTile(file, members, expected, directories, i);
    }
    ZeroTail(file, End(members, n));
    assert Tiled(file, members, tiles);
  }

  lemma ZeroTail(file: Bytes, end: nat)
    requires end <= |file|
    ensures Zero(file[end..]) <==> file == file[..end] + Zeros(|file| - end)
  {
    var parts := file[..end] + Zeros(|file| - end);
    assert parts[end..] == Zeros(|file| - end);
    assert Zero(file[end..]) ==> file[end..] == Zeros(|file| - end);
    assert file == file[..end] + file[end..];
  }

  lemma {:induction false} TilesEnd(file: Bytes, members: seq<Member>, tiles: seq<Bytes>, i: nat)
    requires Tiled(file, members, tiles) && i <= |tiles|
    ensures End(members, i) == |Join(tiles[..i])|
  {
    hide Zero, Blocks, Content;
    if i > 0 {
      assert TileFor(file, members[i - 1], tiles[i - 1], |Join(tiles[..i - 1])|);
      TilesEnd(file, members, tiles, i - 1);
      assert tiles[..i][..i - 1] == tiles[..i - 1];
    }
  }

  lemma TileFound(tiles: seq<Bytes>, tail: Bytes, i: nat)
    requires i < |tiles|
    ensures var at, file := |Join(tiles[..i])|, Join(tiles) + tail;
      at + |tiles[i]| <= |file| && file[at..at + |tiles[i]|] == tiles[i]
  {
    JoinPrefix(tiles, i + 1);
    assert tiles[..i + 1][..i] == tiles[..i];
    var file := Join(tiles) + tail;
    assert Join(tiles[..i + 1]) == Join(tiles[..i]) + tiles[i];
    assert file[..|Join(tiles[..i + 1])|] == Join(tiles[..i + 1]);
  }

  lemma TileIsPlaced(file: Bytes, m: Member, offset: nat, tile: Bytes, directory: bool)
    requires offset + |tile| <= |file| && file[offset..offset + |tile|] == tile
    requires TileFor(file, m, tile, offset) && Metadata(m.info, directory)
    ensures Placed(file, m, offset, directory)
  {
    hide Metadata, Blocks;
    SubSlice(file, offset, |tile|, MAGIC_OFFSET, MAGIC_OFFSET + 8);
    SubSlice(file, offset, |tile|, HEADER + m.info.size, |tile|);
    assert tile[HEADER + m.info.size..|tile|] == tile[HEADER + m.info.size..];
  }

  lemma TiledIsAccepted(file: Bytes, members: seq<Member>, tiles: seq<Bytes>, expected: seq<Bytes>, directories: set<Bytes>)
    requires 0 < |members| <= MAX_MEMBERS && Named(members, expected) && AllMetadata(members, directories)
    requires Tiled(file, members, tiles)
    ensures Accepts(file, members, expected, directories)
  {
    hide Blocks, Zero, Metadata, TileFor, Placed, Join, Whole;
    var n := |members|;
    forall i | 0 <= i < n
      ensures PlacedAt(file, members, directories, i)
    {
      TilesEnd(file, members, tiles, i);
      TileFound(tiles, Zeros(|file| - |Join(tiles)|), i);
      TileIsPlaced(file, members[i], End(members, i), tiles[i], members[i].info.name in directories);
    }
    TilesEnd(file, members, tiles, n);
    assert tiles[..n] == tiles;
    TailAfter(file, Join(tiles));
  }

  lemma TailAfter(file: Bytes, body: Bytes)
    requires |body| <= |file| && file == body + Zeros(|file| - |body|)
    ensures Zero(file[|body|..])
  {
    assert file[|body|..] == Zeros(|file| - |body|);
  }

  /** The reader accepts a file under a member list exactly when the list names the expected members
      with closed metadata and tiles the file. */
  lemma AcceptanceIsTiling(file: Bytes, members: seq<Member>, expected: seq<Bytes>, directories: set<Bytes>)
    ensures Accepts(file, members, expected, directories) <==>
      && 0 < |members| <= MAX_MEMBERS && Named(members, expected) && AllMetadata(members, directories)
      && exists tiles :: Tiled(file, members, tiles)
  {
    hide Tiled, Metadata, Trails;
    if Accepts(file, members, expected, directories) {
      AcceptedIsTiled(file, members, expected, directories);
      forall i | 0 <= i < |members| ensures Metadata(members[i].info, members[i].info.name in directories) {
        assert PlacedAt(file, members, directories, i);
      }
    }
    if 0 < |members| <= MAX_MEMBERS && Named(members, expected) && AllMetadata(members, directories)
      && exists tiles :: Tiled(file, members, tiles)
    {
      var tiles :| Tiled(file, members, tiles);
      TiledIsAccepted(file, members, tiles, expected, directories);
    }
  }

  // --------------------------------------------------------------------------------------------
  // Round trip
  // --------------------------------------------------------------------------------------------

  predicate Plan(entries: seq<Entry>, expected: seq<Bytes>, directories: set<Bytes>) {
    && 0 < |entries| == |expected| <= MAX_MEMBERS
    && (forall i, j :: 0 <= i < j < |expected| ==> expected[i] != expected[j])
    && forall i :: 0 <= i < |entries| ==>
      Fitting(entries[i]) && entries[i].name == expected[i] && entries[i].directory == (expected[i] in directories)
  }

  function MembersOf(entries: seq<Entry>): (members: seq<Member>)
    requires forall i :: 0 <= i < |entries| ==> Fitting(entries[i])
    ensures |members| == |entries|
  {
    seq(|entries|, i requires 0 <= i < |entries| =>
      var e, at := entries[i], |Join(PiecesOf(entries)[..i])|;
      Member(WrittenInfo(e.name, e.directory, |e.content|), at, at + HEADER))
  }

  lemma PartsMakeTile(header: Bytes, content: Bytes, padding: nat)
    requires |header| == HEADER && header[MAGIC_OFFSET..MAGIC_OFFSET + 8] == MAGIC
    requires |content| + padding == Blocks(|content|)
    ensures IsTile(header + content + Zeros(padding), content)
    ensures (header + content + Zeros(padding))[..HEADER] == header
  {
    hide Blocks, MAGIC;
    var tile := header + content + Zeros(padding);
    assert tile[..HEADER] == header;
    assert tile[MAGIC_OFFSET..MAGIC_OFFSET + 8] == tile[..HEADER][MAGIC_OFFSET..MAGIC_OFFSET + 8];
    assert tile[HEADER..HEADER + |content|] == content;
    assert tile[HEADER + |content|..] == Zeros(padding);
  }

  lemma PieceIsTile(e: Entry)
    requires Fitting(e)
    ensures IsTile(Piece(e), e.content) && Piece(e)[..HEADER] == Header(e.name, e.directory, |e.content|)
  {
    HeaderRoundTrip(e.name, e.directory, |e.content|);
    hide Header, Writable, Blocks, IsTile;
    PartsMakeTile(Header(e.name, e.directory, |e.content|), e.content, Blocks(|e.content|) - |e.content|);
  }

  lemma NoHeaderInZeros()
    ensures ReadHeader(Zeros(HEADER)) == None
  {
    var z := Zeros(HEADER);
    assert Field(z, 6) == Zeros(8);
    EmptyFieldReads(8);
  }

  lemma PieceSize(e: Entry)
    requires Fitting(e)
    ensures |Piece(e)| == HEADER + Blocks(|e.content|)
    ensures |Piece(e)| == Next(0, WrittenInfo(e.name, e.directory, |e.content|))
  {
    hide Header;
  }

  lemma HeaderStands(entries: seq<Entry>, i: nat)
    requires i < |entries| && forall k :: 0 <= k < |entries| ==> Fitting(entries[k])
    ensures var e, file, at := entries[i], Archived(entries), |Join(PiecesOf(entries)[..i])|;
      && at + |Piece(e)| <= |file| && file[at..at + |Piece(e)|] == Piece(e)
      && at + HEADER <= |file| && file[at..at + HEADER] == Header(e.name, e.directory, |e.content|)
      && |Join(PiecesOf(entries)[..i + 1])| == at + |Piece(e)|
  {
    hide Header, Trailer, Join, Writable;
    var e, pieces := entries[i], PiecesOf(entries);
    TileFound(pieces, Zeros(Trailer(|Join(pieces)|)), i);
    JoinGrows(pieces, i);
    PieceSize(e);
    SubSlice(Archived(entries), |Join(pieces[..i])|, |Piece(e)|, 0, HEADER);
    assert Piece(e)[..HEADER] == Header(e.name, e.directory, |e.content|);
  }

  lemma JoinGrows(pieces: seq<Bytes>, i: nat)
    requires i < |pieces|
    ensures |Join(pieces[..i + 1])| == |Join(pieces[..i])| + |pieces[i]|
  {
    assert pieces[..i + 1][..i] == pieces[..i];
  }

  lemma ZerosStand(entries: seq<Entry>)
    requires forall k :: 0 <= k < |entries| ==> Fitting(entries[k])
    ensures var file, at := Archived(entries), |Join(PiecesOf(entries)[..|entries|])|;
      at + HEADER <= |file| && file[at..at + HEADER] == Zeros(HEADER)
  {
    hide Piece, Join;
    assert PiecesOf(entries)[..|entries|] == PiecesOf(entries);
  }

  lemma {:induction false} MembersFound(entries: seq<Entry>, i: nat)
    requires 0 < |entries| && i <= |entries| && forall k :: 0 <= k < |entries| ==> Fitting(entries[k])
    ensures MembersFrom(Archived(entries), |Join(PiecesOf(entries)[..i])|) == Some(MembersOf(entries)[i..])
    decreases |entries| - i
  {
    hide ReadHeader, Piece, Blocks, Header, Archived, Join, PiecesOf, Zero;
    var file := Archived(entries);
    var at := |Join(PiecesOf(entries)[..i])|;
    if i == |entries| {
      NoHeaderInZeros();
      ZerosStand(entries);
      SomeMembers(entries, i);
    } else {
      var e := entries[i];
      HeaderStands(entries, i);
      HeaderRoundTrip(e.name, e.directory, |e.content|);
      PieceSize(e);
      MembersFound(entries, i + 1);
      assert MembersOf(entries)[i..] == [MembersOf(entries)[i]] + MembersOf(entries)[i + 1..];
    }
  }

  /** Members were met before the zeros. */
  lemma SomeMembers(entries: seq<Entry>, i: nat)
    requires 0 < i <= |entries| && forall k :: 0 <= k < |entries| ==> Fitting(entries[k])
    ensures |Join(PiecesOf(entries)[..i])| > 0
  {
    hide Header, Join;
    JoinGrows(PiecesOf(entries), i - 1);
  }

  lemma ArchiveIsTiled(entries: seq<Entry>)
    requires forall i :: 0 <= i < |entries| ==> Fitting(entries[i])
    ensures Tiled(Archived(entries), MembersOf(entries), PiecesOf(entries))
    ensures forall i :: 0 <= i < |entries| ==> Content(Archived(entries), MembersOf(entries)[i]) == entries[i].content
  {
    hide Piece, IsTile, Join, Content, Trailer, Whole;
    var file, pieces, members := Archived(entries), PiecesOf(entries), MembersOf(entries);
    forall i | 0 <= i < |entries|
      ensures Content(file, members[i]) == entries[i].content
      ensures TileFor(file, members[i], pieces[i], |Join(pieces[..i])|)
    {
      var e := entries[i];
      HeaderStands(entries, i);
      PieceIsTile(e);
      ContentOfTile(file, members[i], pieces[i], e.content);
    }
    PiecesAreWhole(entries, |entries|);
    assert pieces[..|entries|] == pieces;
    TrailerIsWhole(|Join(pieces)|);
  }

  lemma TrailerIsWhole(used: nat)
    requires used % 512 == 0
    ensures Whole(Trailer(used))
  {
    assert (used + 1024) % 512 == 0;
  }

  lemma ContentOfTile(file: Bytes, m: Member, tile: Bytes, content: Bytes)
    requires 0 <= m.offset && m.offset + |tile| <= |file| && file[m.offset..m.offset + |tile|] == tile
    requires IsTile(tile, content) && m.info.size == |content| && m.data == m.offset + HEADER
    ensures Content(file, m) == content
  {
    hide Blocks;
    SubSlice(file, m.offset, |tile|, HEADER, HEADER + |content|);
  }

  lemma {:induction false} PiecesAreWhole(entries: seq<Entry>, i: nat)
    requires i <= |entries| && forall k :: 0 <= k < |entries| ==> Fitting(entries[k])
    ensures |Join(PiecesOf(entries)[..i])| % 512 == 0
  {
    hide Piece;
    if i > 0 {
      PiecesAreWhole(entries, i - 1);
      JoinGrows(PiecesOf(entries), i - 1);
      PieceSize(entries[i - 1]);
    }
  }

  predicate NoEmptyFile(entries: seq<Entry>) {
    forall i :: 0 <= i < |entries| && !entries[i].directory ==> entries[i].content != []
  }

  function NodesOf(entries: seq<Entry>): seq<Node> {
    seq(|entries|, i requires 0 <= i < |entries| => Node(entries[i].name, entries[i].directory, entries[i].content))
  }

  lemma WrittenMetadata(e: Entry)
    requires Fitting(e)
    ensures Metadata(WrittenInfo(e.name, e.directory, |e.content|), e.directory) <==> e.directory || e.content != []
  {
    assert Eight(11) == 8589934592;
  }

  /** What is written is read back whole, and accepted exactly when no file is empty. */
  lemma BundleRoundTrip(entries: seq<Entry>, expected: seq<Bytes>, directories: set<Bytes>)
    requires Plan(entries, expected, directories)
    ensures var file := Archived(entries);
      && MembersFrom(file, 0) == Some(MembersOf(entries))
      && (Accepts(file, MembersOf(entries), expected, directories) <==> NoEmptyFile(entries))
      && Extracted(file, MembersOf(entries), directories) == NodesOf(entries)
  {
    hide Tiled, Archived, Content, PiecesOf, Metadata, Writable, Join, MembersFrom, Accepts;
    MembersFound(entries, 0);
    assert PiecesOf(entries)[..0] == [];
    JoinNothing();
    assert MembersOf(entries)[0..] == MembersOf(entries);
    ArchiveIsTiled(entries);
    AcceptanceIsTiling(Archived(entries), MembersOf(entries), expected, directories);
    forall i | 0 <= i < |entries|
      ensures Metadata(MembersOf(entries)[i].info, MembersOf(entries)[i].info.name in directories) <==>
        entries[i].directory || entries[i].content != []
    {
      WrittenMetadata(entries[i]);
    }
  }

  lemma JoinNothing()
    ensures Join([]) == []
  {
  }
}
