/**
 The frame codec of the protocol tools: split_frames of harness/packet_diff.py takes apart what
 legacy_frame and modern_frame of harness/make_fixture.py put together.
 */
module Frames {
  import opened Bytes
  import opened Options
  import Xtea

  datatype Layout = Legacy | Modern

  /**
   The checksum and the compressor are parameters. `inflate` is one message on its own, and
   `resume` the session's one stream after the chunks already fed to it; None is zlib.error.
   */
  datatype Codecs = Codecs(adler: seq<Byte> -> U32, deflate: seq<Byte> -> seq<Byte>,
                           inflate: seq<Byte> -> Option<seq<Byte>>,
                           resume: (seq<seq<Byte>>, seq<Byte>) -> Option<seq<Byte>>)

  /** xtea_apply under one key, on whole blocks; true encrypts. */
  type Cipher = (seq<Byte>, bool) -> seq<Byte>

  function XteaOf(k: Xtea.Key): Cipher {
    (data: seq<Byte>, encrypt: bool) => if |data| % 8 == 0 then Xtea.Applied(k, data, encrypt) else []
  }

  /** What the round trips need of the cipher. */
  ghost predicate Invertible(cipher: Cipher) {
    forall plain {:trigger cipher(plain, true)} :: |plain| % 8 == 0 ==>
      |cipher(plain, true)| == |plain| && cipher(cipher(plain, true), false) == plain
  }

  lemma XteaInvertible(k: Xtea.Key)
    ensures Invertible(XteaOf(k))
  {
    forall plain: seq<Byte> | |plain| % 8 == 0
      ensures |XteaOf(k)(plain, true)| == |plain| && XteaOf(k)(XteaOf(k)(plain, true), false) == plain
    {
      Xtea.BufferRoundTrip(k, true, plain);
    }
  }

  datatype Setup = Setup(layout: Layout, cipher: Cipher, decrypt: bool, codecs: Codecs)

  datatype Frame = Frame(index: nat, seqNo: U32, body: seq<Byte>, compressed: bool, rawLen: nat)

  datatype Error = Truncated(index: nat) | NoChecksum | NotBlocks(length: nat) | NoPayload | InnerTooLong(index: nat)
                 | BadDeflate | PackRange

  const HIGH_BIT: nat := 0x8000_0000
  const FOOTER: seq<Byte> := [0x00, 0x00, 0xFF, 0xFF]

  // --------------------------------------------------------------------------------
  // Putting together
  // --------------------------------------------------------------------------------

  function Zeros(n: nat): (z: seq<Byte>)
    ensures |z| == n
  {
    seq(n, _ => 0)
  }

  /** Zero bytes up to the next whole block. */
  function PadLength(n: nat): (p: nat)
    ensures p < 8 && (n + p) % 8 == 0
  {
    (8 - n % 8) % 8
  }

  function LegacyPlain(body: seq<Byte>): (plain: seq<Byte>)
    requires |body| < 0x1_0000
    ensures |plain| % 8 == 0 && |plain| == 2 + |body| + PadLength(2 + |body|)
  {
    Le16(|body|) + body + Zeros(PadLength(2 + |body|))
  }

  function LegacyPayload(cipher: Cipher, codecs: Codecs, body: seq<Byte>): (payload: seq<Byte>)
    requires |body| < 0x1_0000
    ensures Invertible(cipher) ==> |payload| == 6 + |body| + PadLength(2 + |body|)
  {
    var encrypted := cipher(LegacyPlain(body), true);
    Le32(codecs.adler(encrypted)) + encrypted
  }

  /** struct.pack refuses a number that does not fit its field. */
  function LegacyFrame(cipher: Cipher, codecs: Codecs, body: seq<Byte>): Result<seq<Byte>, Error> {
    if |body| >= 0x1_0000 then Err(PackRange)
    else
      var payload := LegacyPayload(cipher, codecs, body);
      if |payload| >= 0x1_0000 then Err(PackRange) else Ok(Le16(|payload|) + payload)
  }

  function ModernPlain(body: seq<Byte>): (plain: seq<Byte>)
    ensures |plain| % 8 == 0 && |plain| == 1 + |body| + PadLength(1 + |body|)
  {
    var padding := PadLength(1 + |body|);
    [padding] + body + Zeros(padding)
  }

  /** Whole blocks: how many zeros close the payload, the body, and so many zeros, less than a block of them. */
  lemma ModernPlainExactly(body: seq<Byte>)
    ensures var plain := ModernPlain(body);
            && |plain| % 8 == 0 && plain[0] < 8 && plain[0] == |plain| - 1 - |body| && plain[1..1 + |body|] == body
            && forall k :: 1 + |body| <= k < |plain| ==> plain[k] == 0
  {
  }

  /** The same with the length of the body before it. */
  lemma LegacyPlainExactly(body: seq<Byte>)
    requires |body| < 0x1_0000
    ensures var plain := LegacyPlain(body);
            && |plain| % 8 == 0 && |plain| < |body| + 10 && U16At(plain, 0) == |body| && plain[2..2 + |body|] == body
            && forall k :: 2 + |body| <= k < |plain| ==> plain[k] == 0
  {
    var plain := LegacyPlain(body);
    assert plain[0] == Le16(|body|)[0] && plain[1] == Le16(|body|)[1];
    assert U16At(plain, 0) == U16At(Le16(|body|), 0);
  }

  /** flag | sequence. */
  function Flagged(sequence: nat, compress: bool): nat {
    if compress && sequence < HIGH_BIT then HIGH_BIT + sequence else sequence
  }

  function ModernPayload(encrypted: seq<Byte>, word: U32): (payload: seq<Byte>)
    ensures |payload| == 4 + |encrypted|
  {
    Le32(word) + encrypted
  }

  function ModernFrame(cipher: Cipher, codecs: Codecs, body: seq<Byte>, sequence: nat, compress: bool)
    : Result<seq<Byte>, Error>
  {
    var encrypted := cipher(ModernPlain(if compress then codecs.deflate(body) else body), true);
    var word := Flagged(sequence, compress);
    if word >= 0x1_0000_0000 || |encrypted| / 8 >= 0x1_0000 then Err(PackRange)
    else Ok(Le16(|encrypted| / 8) + ModernPayload(encrypted, word))
  }

  // --------------------------------------------------------------------------------
  // Taking apart
  // --------------------------------------------------------------------------------

  datatype Opened = Opened(seqNo: U32, body: seq<Byte>, compressed: bool, fed: seq<seq<Byte>>)

  /** plain[1 : len(plain) - padding], where a negative bound counts from the end. */
  function Unpadded(plain: seq<Byte>): seq<Byte>
    requires plain != []
  {
    var stop := |plain| - plain[0];
    var stop' := if stop < 0 then stop + |plain| else stop;
    if stop' <= 1 then [] else plain[1..stop']
  }

  /** A padding that leaves no body gives none, and one beyond the payload counts from the end of it once more. */
  lemma UnpaddedExactly(plain: seq<Byte>)
    requires plain != []
    ensures plain[0] < |plain| ==> Unpadded(plain) == plain[1..|plain| - plain[0]]
    ensures plain[0] == |plain| || plain[0] >= 2 * |plain| - 1 ==> Unpadded(plain) == []
    ensures |plain| < plain[0] < 2 * |plain| ==> Unpadded(plain) == plain[1..2 * |plain| - plain[0]]
  {
  }

  function OpenModern(codecs: Codecs, plain: seq<Byte>, checksum: U32, fed: seq<seq<Byte>>): Result<Opened, Error> {
    if plain == [] then Err(NoPayload)
    else
      var body := Unpadded(plain);
      if checksum < HIGH_BIT then Ok(Opened(checksum, body, false, fed))
      else if codecs.inflate(body).Some? then Ok(Opened(checksum - HIGH_BIT, codecs.inflate(body).value, true, fed))
      else
        match codecs.resume(fed, body + FOOTER)
        case Some(resumed) => Ok(Opened(checksum - HIGH_BIT, resumed, true, fed + [body + FOOTER]))
        case None => Err(BadDeflate)
  }

  function OpenLegacy(plain: seq<Byte>, checksum: U32, index: nat, fed: seq<seq<Byte>>): Result<Opened, Error> {
    if |plain| < 2 then Err(NoPayload)
    else if U16At(plain, 0) + 2 > |plain| then Err(InnerTooLong(index))
    else Ok(Opened(checksum, plain[2..2 + U16At(plain, 0)], false, fed))
  }

  /** A frame without its length header. */
  function OpenChunk(setup: Setup, chunk: seq<Byte>, index: nat, fed: seq<seq<Byte>>): Result<Opened, Error> {
    if |chunk| < 4 then Err(NoChecksum)
    else
      var checksum, encrypted := U32At(chunk, 0), chunk[4..];
      if !setup.decrypt then Ok(Opened(checksum, encrypted, false, fed))
      else if |encrypted| % 8 != 0 then Err(NotBlocks(|encrypted|))
      else
        var plain := setup.cipher(encrypted, false);
        if setup.layout.Modern? then OpenModern(setup.codecs, plain, checksum, fed)
        else OpenLegacy(plain, checksum, index, fed)
  }

  /** A compressed body that does not inflate by itself is given to the session's stream with the footer of a flush. */
  lemma ResumedExactly(codecs: Codecs, plain: seq<Byte>, checksum: U32, fed: seq<seq<Byte>>)
    requires plain != [] && checksum >= 0x8000_0000 && codecs.inflate(Unpadded(plain)).None?
    ensures var part := Unpadded(plain) + [0x00, 0x00, 0xFF, 0xFF];
            OpenModern(codecs, plain, checksum, fed)
            == match codecs.resume(fed, part)
               case Some(body) => Ok(Opened(checksum - 0x8000_0000, body, true, fed + [part]))
               case None => Err(BadDeflate)
  {
  }

  /** Left encrypted, a frame is its first four bytes and the rest as it came, never taken for compressed. */
  lemma UndecryptedExactly(setup: Setup, word: U32, rest: seq<Byte>, index: nat, fed: seq<seq<Byte>>)
    requires !setup.decrypt
    ensures OpenChunk(setup, Le32(word) + rest, index, fed) == Ok(Opened(word, rest, false, fed))
  {
    var chunk := Le32(word) + rest;
    assert chunk[..4] == Le32(word) && chunk[4..] == rest;
    assert U32At(chunk, 0) == U32At(chunk[..4], 0);
  }

  /** How a frame without its header is opened, by index and by what the session's stream has been fed. */
  type Opener = (seq<Byte>, nat, seq<seq<Byte>>) -> Result<Opened, Error>

  function OpenerOf(setup: Setup): Opener {
    (chunk: seq<Byte>, index: nat, fed: seq<seq<Byte>>) => OpenChunk(setup, chunk, index, fed)
  }

  /** How many bytes follow the header. */
  function Remainder(layout: Layout, header: U16): nat {
    if layout.Modern? then header * 8 + 4 else header
  }

  datatype Read = Read(frame: Frame, next: nat, fed: seq<seq<Byte>>)

  function ReadFrame(layout: Layout, open: Opener, data: seq<Byte>, pos: nat, index: nat, fed: seq<seq<Byte>>): (r: Result<Read, Error>)
    requires pos + 2 <= |data|
    ensures r.Ok? ==> pos < r.value.next <= |data|
  {
    var remainder := Remainder(layout, U16At(data, pos));
    var next := pos + 2 + remainder;
    if next > |data| then Err(Truncated(index))
    else
      match open(data[pos + 2..next], index, fed)
      case Err(e) => Err(e)
      case Ok(o) => Ok(Read(Frame(index, o.seqNo, o.body, o.compressed, remainder + 2), next, o.fed))
  }

  /** The frames from a position on. Fewer than two bytes at the end are ignored. */
  function SplitFrom(layout: Layout, open: Opener, data: seq<Byte>, pos: nat, index: nat, fed: seq<seq<Byte>>)
    : Result<seq<Frame>, Error>
    decreases |data| - pos
  {
    if pos + 2 > |data| then Ok([])
    else
      match ReadFrame(layout, open, data, pos, index, fed)
      case Err(e) => Err(e)
      case Ok(r) => Before([r.frame], SplitFrom(layout, open, data, r.next, index + 1, r.fed))
  }

  function Before(frames: seq<Frame>, rest: Result<seq<Frame>, Error>): Result<seq<Frame>, Error> {
    match rest
    case Err(e) => Err(e)
    case Ok(fs) => Ok(frames + fs)
  }

  method Open(setup: Setup, k: Xtea.Key, chunk: seq<Byte>, index: nat, fed: seq<seq<Byte>>)
    returns (out: Result<Opened, Error>)
    requires setup.cipher == XteaOf(k)
    ensures out == OpenChunk(setup, chunk, index, fed)
  {
    if |chunk| < 4 {
      return Err(NoChecksum);
    }
    var checksum, encrypted := U32At(chunk, 0), chunk[4..];
    if !setup.decrypt {
      return Ok(Opened(checksum, encrypted, false, fed));
    }
    var plain := Xtea.Apply(encrypted, k, false);
    if plain.Err? {
      return Err(NotBlocks(plain.error.length));
    }
    out := if setup.layout.Modern? then OpenModern(setup.codecs, plain.value, checksum, fed)
           else OpenLegacy(plain.value, checksum, index, fed);
  }

  /** What split_frames makes of a capture. */
  function Split(setup: Setup, data: seq<Byte>): Result<seq<Frame>, Error> {
    SplitFrom(setup.layout, OpenerOf(setup), data, 0, 0, [])
  }

  method SplitFrames(setup: Setup, k: Xtea.Key, data: seq<Byte>) returns (out: Result<seq<Frame>, Error>)
    requires setup.cipher == XteaOf(k)
    ensures out == Split(setup, data)
  {
    var frames: seq<Frame>, pos, index: nat, fed: seq<seq<Byte>> := [], 0, 0, [];
    ghost var open := OpenerOf(setup);
    BeforeNone(Split(setup, data));
    while pos + 2 <= |data|
      invariant pos <= |data|
      invariant Split(setup, data) == Before(frames, SplitFrom(setup.layout, open, data, pos, index, fed))
    {
      var remainder := Remainder(setup.layout, U16At(data, pos));
      var next := pos + 2 + remainder;
      if next > |data| {
        return Err(Truncated(index));
      }
      var read := Open(setup, k, data[pos + 2..next], index, fed);
      assert read == open(data[pos + 2..next], index, fed);
      if read.Err? {
        return Err(read.error);
      }
      var o := read.value;
      var frame := Frame(index, o.seqNo, o.body, o.compressed, remainder + 2);
      BeforeBoth(frames, frame, SplitFrom(setup.layout, open, data, next, index + 1, o.fed));
      frames, pos, index, fed := frames + [frame], next, index + 1, o.fed;
    }
    assert frames + [] == frames;
    return Ok(frames);
  }

  lemma BeforeNone(rest: Result<seq<Frame>, Error>)
    ensures Before([], rest) == rest
  {
    if rest.Ok? {
      assert [] + rest.value == rest.value;
    }
  }

  lemma BeforeBoth(frames: seq<Frame>, frame: Frame, rest: Result<seq<Frame>, Error>)
    ensures Before(frames, Before([frame], rest)) == Before(frames + [frame], rest)
  {
    if rest.Ok? {
      assert frames + ([frame] + rest.value) == frames + [frame] + rest.value;
    }
  }

  // --------------------------------------------------------------------------------
  // Round trips
  // --------------------------------------------------------------------------------

  function Concat(parts: seq<seq<Byte>>): seq<Byte> {
    if parts == [] then [] else parts[0] + Concat(parts[1..])
  }

  /** The bytes are one whole frame, and it opens to `frame`. */
  ghost predicate Opens(layout: Layout, open: Opener, part: seq<Byte>, frame: Frame) {
    && |part| >= 2
    && frame.rawLen == |part| == 2 + Remainder(layout, U16At(part, 0))
    && open(part[2..], frame.index, []) == Ok(Opened(frame.seqNo, frame.body, frame.compressed, []))
  }

  /** A frame inside longer data is read as it stands. */
  lemma ReadPart(layout: Layout, open: Opener, data: seq<Byte>, pos: nat, part: seq<Byte>, frame: Frame)
    requires Opens(layout, open, part, frame) && pos + |part| <= |data| && data[pos..pos + |part|] == part
    ensures ReadFrame(layout, open, data, pos, frame.index, []) == Ok(Read(frame, pos + |part|, []))
  {
    assert part[0] == data[pos] && part[1] == data[pos + 1];
    assert U16At(data, pos) == U16At(part, 0);
    assert data[pos + 2..pos + |part|] == part[2..];
  }

  lemma SplitStep(layout: Layout, open: Opener, data: seq<Byte>, pos: nat, index: nat, read: Read)
    requires pos + 2 <= |data| && ReadFrame(layout, open, data, pos, index, []) == Ok(read)
    ensures SplitFrom(layout, open, data, pos, index, [])
         == Before([read.frame], SplitFrom(layout, open, data, read.next, index + 1, read.fed))
  {
  }

  /** Every part opens, alone, to the frame of the same position, numbered from `index` on. */
  ghost predicate OpenInOrder(layout: Layout, open: Opener, parts: seq<seq<Byte>>, frames: seq<Frame>, index: nat)
    requires |parts| == |frames|
  {
    forall i :: 0 <= i < |parts| ==> frames[i].index == index + i && Opens(layout, open, parts[i], frames[i])
  }

  lemma OpenInOrderTail(layout: Layout, open: Opener, parts: seq<seq<Byte>>, frames: seq<Frame>, index: nat)
    requires |parts| == |frames| && parts != [] && OpenInOrder(layout, open, parts, frames, index)
    ensures OpenInOrder(layout, open, parts[1..], frames[1..], index + 1)
    ensures frames[0].index == index && Opens(layout, open, parts[0], frames[0])
  {
    forall i | 0 <= i < |parts| - 1
      ensures frames[1..][i].index == index + 1 + i && Opens(layout, open, parts[1..][i], frames[1..][i])
    {
      assert parts[1..][i] == parts[i + 1] && frames[1..][i] == frames[i + 1];
    }
  }

  /** The rest of the splitting from a position, an index and a stream, with its definition out of sight. */
  type Splitter = (nat, nat, seq<seq<Byte>>) -> Result<seq<Frame>, Error>

  ghost predicate Splits(split: Splitter, layout: Layout, open: Opener, data: seq<Byte>) {
    forall pos: nat, index: nat, fed: seq<seq<Byte>> {:trigger SplitFrom(layout, open, data, pos, index, fed)} ::
      split(pos, index, fed) == SplitFrom(layout, open, data, pos, index, fed)
  }

  function SplitterOf(layout: Layout, open: Opener, data: seq<Byte>): Splitter {
    (pos: nat, index: nat, fed: seq<seq<Byte>>) => SplitFrom(layout, open, data, pos, index, fed)
  }

  lemma SplitEnd(split: Splitter, layout: Layout, open: Opener, data: seq<Byte>, index: nat, fed: seq<seq<Byte>>)
    requires Splits(split, layout, open, data)
    ensures split(|data|, index, fed) == Ok([])
  {
    assert split(|data|, index, fed) == SplitFrom(layout, open, data, |data|, index, fed);
  }

  /** Frames that open one by one are split out of their concatenation in order, whatever the position. */
  lemma {:induction false} SplitConcat(split: Splitter, layout: Layout, open: Opener, data: seq<Byte>, pos: nat,
                                       parts: seq<seq<Byte>>, frames: seq<Frame>, index: nat)
    requires Splits(split, layout, open, data)
    requires |parts| == |frames| && pos <= |data| && data[pos..] == Concat(parts)
    requires OpenInOrder(layout, open, parts, frames, index)
    ensures split(pos, index, []) == Ok(frames)
    decreases |parts|
  {
    if parts == [] {
      SplitEnd(split, layout, open, data, index, []);
    } else {
      ConcatAt(data, pos, parts);
      OpenInOrderTail(layout, open, parts, frames, index);
      SplitConcat(split, layout, open, data, pos + |parts[0]|, parts[1..], frames[1..], index + 1);
      SplitFirst(split, layout, open, data, pos, parts[0], frames, index);
    }
  }

  /** Where several parts lie one after the other, the first lies first. */
  lemma ConcatAt(data: seq<Byte>, pos: nat, parts: seq<seq<Byte>>)
    requires parts != [] && pos <= |data| && data[pos..] == Concat(parts)
    ensures pos + |parts[0]| <= |data| && data[pos..pos + |parts[0]|] == parts[0]
    ensures data[pos + |parts[0]|..] == Concat(parts[1..])
  {
    TailOfConcat(data, pos, parts[0], Concat(parts[1..]));
  }

  lemma SplitFirst(split: Splitter, layout: Layout, open: Opener, data: seq<Byte>, pos: nat, part: seq<Byte>, frames: seq<Frame>, index: nat)
    requires pos + |part| <= |data| && data[pos..pos + |part|] == part
    requires frames != [] && frames[0].index == index && Opens(layout, open, part, frames[0])
    requires Splits(split, layout, open, data) && split(pos + |part|, index + 1, []) == Ok(frames[1..])
    ensures split(pos, index, []) == Ok(frames)
  {
    assert split(pos + |part|, index + 1, []) == SplitFrom(layout, open, data, pos + |part|, index + 1, []);
    assert split(pos, index, []) == SplitFrom(layout, open, data, pos, index, []);
    ReadPart(layout, open, data, pos, part, frames[0]);
    SplitStep(layout, open, data, pos, index, Read(frames[0], pos + |part|, []));
    PrependAgain(frames);
  }

  lemma PrependAgain(frames: seq<Frame>)
    requires frames != []
    ensures Before([frames[0]], Ok(frames[1..])) == Ok(frames)
  {
    assert [frames[0]] + frames[1..] == frames;
  }

  lemma TailOfConcat(data: seq<Byte>, pos: nat, part: seq<Byte>, rest: seq<Byte>)
    requires pos <= |data| && data[pos..] == part + rest
    ensures pos + |part| <= |data| && data[pos..pos + |part|] == part && data[pos + |part|..] == rest
  {
    assert data[pos..pos + |part|] == data[pos..][..|part|];
    assert data[pos + |part|..] == data[pos..][|part|..];
  }

  lemma HeadReads(head: U16, tail: seq<Byte>)
    ensures U16At(Le16(head) + tail, 0) == head && (Le16(head) + tail)[2..] == tail
  {
    assert U16At(Le16(head), 0) == head;
    assert (Le16(head) + tail)[2..] == tail;
  }

  lemma ChecksumReads(checksum: U32, tail: seq<Byte>)
    ensures U32At(Le32(checksum) + tail, 0) == checksum && (Le32(checksum) + tail)[4..] == tail
  {
    var head := Le32(checksum);
    assert U32At(head, 0) == checksum;
    assert U32At(head + tail, 0) == U32At(head, 0);
    assert (head + tail)[4..] == tail;
  }

  /** What was encrypted and put behind its checksum reaches the layout's own reader as it was. */
  lemma ChunkOpens(setup: Setup, plain: seq<Byte>, checksum: U32, index: nat, fed: seq<seq<Byte>>)
    requires setup.decrypt && |plain| % 8 == 0 && Invertible(setup.cipher)
    ensures OpenChunk(setup, Le32(checksum) + setup.cipher(plain, true), index, fed)
         == if setup.layout.Modern? then OpenModern(setup.codecs, plain, checksum, fed)
            else OpenLegacy(plain, checksum, index, fed)
  {
    ChecksumReads(checksum, setup.cipher(plain, true));
  }

  lemma PadLimit(n: nat)
    ensures 6 + n + PadLength(2 + n) < 0x1_0000 <==> n <= 65526
  {
  }

  /** The longest body that legacy_frame can pack. */
  lemma LegacyLimit(cipher: Cipher, codecs: Codecs, body: seq<Byte>)
    requires Invertible(cipher)
    ensures LegacyFrame(cipher, codecs, body).Ok? <==> |body| <= 65526
  {
    PadLimit(|body|);
  }

  lemma LegacyPlainOpens(body: seq<Byte>, checksum: U32, index: nat)
    requires |body| < 0x1_0000
    ensures OpenLegacy(LegacyPlain(body), checksum, index, []) == Ok(Opened(checksum, body, false, []))
  {
    var tail := body + Zeros(PadLength(2 + |body|));
    assert LegacyPlain(body) == Le16(|body|) + tail;
    HeadReads(|body|, tail);
    assert LegacyPlain(body)[2..2 + |body|] == tail[..|body|] == body;
  }

  lemma LegacyPayloadOpens(setup: Setup, body: seq<Byte>, index: nat)
    requires setup.layout.Legacy? && setup.decrypt && Invertible(setup.cipher) && |body| < 0x1_0000
    ensures OpenerOf(setup)(LegacyPayload(setup.cipher, setup.codecs, body), index, [])
         == Ok(Opened(setup.codecs.adler(setup.cipher(LegacyPlain(body), true)), body, false, []))
  {
    var checksum := setup.codecs.adler(setup.cipher(LegacyPlain(body), true));
    ChunkOpens(setup, LegacyPlain(body), checksum, index, []);
    LegacyPlainOpens(body, checksum, index);
  }

  /** A header that counts the bytes behind it makes a frame of them. */
  lemma HeadedOpens(layout: Layout, open: Opener, header: U16, chunk: seq<Byte>, frame: Frame)
    requires Remainder(layout, header) == |chunk| && frame.rawLen == 2 + |chunk|
    requires open(chunk, frame.index, []) == Ok(Opened(frame.seqNo, frame.body, frame.compressed, []))
    ensures Opens(layout, open, Le16(header) + chunk, frame)
  {
    HeadReads(header, chunk);
  }

  lemma LegacyOpens(setup: Setup, body: seq<Byte>, index: nat, part: seq<Byte>)
    requires setup.layout.Legacy? && setup.decrypt && Invertible(setup.cipher) && LegacyFrame(setup.cipher, setup.codecs, body) == Ok(part)
    ensures |body| < 0x1_0000
    ensures Opens(setup.layout, OpenerOf(setup), part,
                  Frame(index, setup.codecs.adler(setup.cipher(LegacyPlain(body), true)), body, false, |part|))
  {
    var payload := LegacyPayload(setup.cipher, setup.codecs, body);
    LegacyPayloadOpens(setup, body, index);
    HeadedOpens(setup.layout, OpenerOf(setup), |payload|, payload,
                Frame(index, setup.codecs.adler(setup.cipher(LegacyPlain(body), true)), body, false, 2 + |payload|));
  }

  /** split_frames on any run of legacy frames gives back the bodies, in order. */
  lemma LegacyRoundTrip(setup: Setup, bodies: seq<seq<Byte>>, parts: seq<seq<Byte>>)
    requires setup.layout.Legacy? && setup.decrypt && Invertible(setup.cipher) && |parts| == |bodies|
    requires forall i :: 0 <= i < |bodies| ==> LegacyFrame(setup.cipher, setup.codecs, bodies[i]) == Ok(parts[i])
    ensures Split(setup, Concat(parts)).Ok?
    ensures var frames := Split(setup, Concat(parts)).value;
            |frames| == |bodies| && forall i :: 0 <= i < |bodies| ==>
              frames[i].body == bodies[i] && frames[i].index == i && frames[i].rawLen == |parts[i]| && !frames[i].compressed
  {
    var frames := seq(|bodies|, i requires 0 <= i < |bodies| =>
      Frame(i, setup.codecs.adler(setup.cipher(if |bodies[i]| < 0x1_0000 then LegacyPlain(bodies[i]) else [], true)),
            bodies[i], false, |parts[i]|));
    forall i | 0 <= i < |bodies| ensures Opens(setup.layout, OpenerOf(setup), parts[i], frames[i]) {
      LegacyOpens(setup, bodies[i], i, parts[i]);
    }
    SplitConcat(SplitterOf(setup.layout, OpenerOf(setup), Concat(parts)), setup.layout, OpenerOf(setup), Concat(parts), 0,
                parts, frames, 0);
  }

  // Modern frames

  datatype Message = Message(body: seq<Byte>, sequence: U32, compress: bool)

  /** What modern_frame encrypts of a message, before the padding. */
  function Sent(codecs: Codecs, m: Message): seq<Byte> {
    if m.compress then codecs.deflate(m.body) else m.body
  }

  /** The sequence number leaves the high bit to the compression flag, and compression can be undone. */
  ghost predicate Sendable(codecs: Codecs, m: Message) {
    m.sequence < HIGH_BIT && (m.compress ==> codecs.inflate(codecs.deflate(m.body)) == Some(m.body))
  }

  /** What the reader makes of compressed bytes: the message on its own, or else the session's one stream. */
  function Decompressed(codecs: Codecs, sent: seq<Byte>, fed: seq<seq<Byte>>): Option<seq<Byte>> {
    if codecs.inflate(sent).Some? then codecs.inflate(sent) else codecs.resume(fed, sent + FOOTER)
  }

  /** What the session's stream has been fed after a compressed message. */
  function Fed(codecs: Codecs, m: Message, fed: seq<seq<Byte>>): seq<seq<Byte>> {
    if m.compress && codecs.inflate(Sent(codecs, m)).None? then fed + [Sent(codecs, m) + FOOTER] else fed
  }

  /** The message comes back to a reader whose stream has been fed that much. */
  ghost predicate Returns(codecs: Codecs, m: Message, fed: seq<seq<Byte>>) {
    m.sequence < HIGH_BIT && (m.compress ==> Decompressed(codecs, Sent(codecs, m), fed) == Some(m.body))
  }

  /** So do all of several, each to the stream that the ones before it have fed. */
  ghost predicate AllReturn(codecs: Codecs, ms: seq<Message>, fed: seq<seq<Byte>>) {
    ms != [] ==> Returns(codecs, ms[0], fed) && AllReturn(codecs, ms[1..], Fed(codecs, ms[0], fed))
  }

  /** Messages whose compression is undone on its own feed the stream nothing. */
  lemma {:induction false} SendableReturn(codecs: Codecs, ms: seq<Message>)
    requires forall i :: 0 <= i < |ms| ==> Sendable(codecs, ms[i])
    ensures AllReturn(codecs, ms, [])
  {
    if ms != [] {
      assert Sendable(codecs, ms[0]);
      SendableReturn(codecs, ms[1..]);
    }
  }

  lemma UnpaddedPlain(body: seq<Byte>)
    ensures ModernPlain(body) != [] && Unpadded(ModernPlain(body)) == body
  {
    var padding := PadLength(1 + |body|);
    var plain := ModernPlain(body);
    assert plain[0] == padding && |plain| - padding == 1 + |body|;
    assert plain[1..1 + |body|] == body;
  }

  lemma ModernPayloadOpens(setup: Setup, sent: seq<Byte>, word: U32, index: nat, fed: seq<seq<Byte>>)
    requires setup.layout.Modern? && setup.decrypt && Invertible(setup.cipher)
    ensures OpenerOf(setup)(ModernPayload(setup.cipher(ModernPlain(sent), true), word), index, fed)
         == OpenModern(setup.codecs, ModernPlain(sent), word, fed)
  {
    ChunkOpens(setup, ModernPlain(sent), word, index, fed);
  }

  /** The frame that a message should come back as. */
  function FrameOf(m: Message, index: nat, part: seq<Byte>): Frame {
    Frame(index, m.sequence, m.body, m.compress, |part|)
  }

  /** A sent message opens to itself, and leaves the stream as it should, exactly if it returns. */
  lemma ModernPlainOpens(codecs: Codecs, m: Message, fed: seq<seq<Byte>>)
    ensures var o := OpenModern(codecs, ModernPlain(Sent(codecs, m)), Flagged(m.sequence, m.compress), fed);
            && (Returns(codecs, m, fed) ==> o == Ok(Opened(m.sequence, m.body, m.compress, Fed(codecs, m, fed))))
            && (o.Ok? && o.value.seqNo == m.sequence && o.value.body == m.body && o.value.compressed == m.compress ==>
                  Returns(codecs, m, fed))
  {
    UnpaddedPlain(Sent(codecs, m));
  }

  /** Reading a modern frame where it stands is opening what was sent in it. */
  lemma ModernReads(setup: Setup, m: Message, part: seq<Byte>, data: seq<Byte>, pos: nat, index: nat, fed: seq<seq<Byte>>)
    requires setup.layout.Modern? && setup.decrypt && Invertible(setup.cipher)
    requires ModernFrame(setup.cipher, setup.codecs, m.body, m.sequence, m.compress) == Ok(part)
    requires pos + |part| <= |data| && data[pos..pos + |part|] == part
    ensures pos + 2 <= |data|
    ensures ReadFrame(setup.layout, OpenerOf(setup), data, pos, index, fed) ==
            match OpenModern(setup.codecs, ModernPlain(Sent(setup.codecs, m)), Flagged(m.sequence, m.compress), fed) {
              case Err(e) => Err(e)
              case Ok(o) => Ok(Read(Frame(index, o.seqNo, o.body, o.compressed, |part|), pos + |part|, o.fed))
            }
  {
    var sent, word := Sent(setup.codecs, m), Flagged(m.sequence, m.compress);
    var encrypted := setup.cipher(ModernPlain(sent), true);
    var header, chunk := |encrypted| / 8, ModernPayload(encrypted, word);
    HeadReads(header, chunk);
    assert part == Le16(header) + chunk && |part| == 2 + |chunk|;
    assert Remainder(setup.layout, header) == |chunk|;
    HeaderAt(data, pos, part, header, chunk);
    ModernPayloadOpens(setup, sent, word, index, fed);
  }

  lemma HeaderAt(data: seq<Byte>, pos: nat, part: seq<Byte>, header: U16, chunk: seq<Byte>)
    requires part == Le16(header) + chunk && pos + |part| <= |data| && data[pos..pos + |part|] == part
    ensures U16At(data, pos) == header && data[pos + 2..pos + 2 + |chunk|] == chunk
  {
    HeadReads(header, chunk);
    assert data[pos] == part[0] && data[pos + 1] == part[1];
    assert data[pos + 2..pos + 2 + |chunk|] == part[2..];
  }

  /** A modern frame on its own is read back if and only if its message is sendable. */
  lemma ModernOpensExactly(setup: Setup, m: Message, index: nat, part: seq<Byte>)
    requires setup.layout.Modern? && setup.decrypt && Invertible(setup.cipher)
    requires ModernFrame(setup.cipher, setup.codecs, m.body, m.sequence, m.compress) == Ok(part)
    ensures Opens(setup.layout, OpenerOf(setup), part, FrameOf(m, index, part)) <==> Sendable(setup.codecs, m)
  {
    assert part[0..|part|] == part;
    ModernReads(setup, m, part, part, 0, index, []);
    ModernPlainOpens(setup.codecs, m, []);
    UnpaddedPlain(Sent(setup.codecs, m));
  }

  function FramesOf(ms: seq<Message>, parts: seq<seq<Byte>>, index: nat): seq<Frame>
    requires |ms| == |parts|
  {
    if ms == [] then [] else [FrameOf(ms[0], index, parts[0])] + FramesOf(ms[1..], parts[1..], index + 1)
  }

  lemma {:induction false} FramesAt(ms: seq<Message>, parts: seq<seq<Byte>>, index: nat, i: nat)
    requires |ms| == |parts| && i < |ms|
    ensures |FramesOf(ms, parts, index)| == |ms| && FramesOf(ms, parts, index)[i] == FrameOf(ms[i], index + i, parts[i])
  {
    if i == 0 {
      FramesCount(ms[1..], parts[1..], index + 1);
    } else {
      FramesAt(ms[1..], parts[1..], index + 1, i - 1);
    }
  }

  lemma {:induction false} FramesCount(ms: seq<Message>, parts: seq<seq<Byte>>, index: nat)
    requires |ms| == |parts|
    ensures |FramesOf(ms, parts, index)| == |ms|
  {
    if ms != [] {
      FramesCount(ms[1..], parts[1..], index + 1);
    }
  }

  ghost predicate Packed(setup: Setup, ms: seq<Message>, parts: seq<seq<Byte>>)
    requires |ms| == |parts|
  {
    forall i :: 0 <= i < |ms| ==>
      ModernFrame(setup.cipher, setup.codecs, ms[i].body, ms[i].sequence, ms[i].compress) == Ok(parts[i])
  }

  /** The rest of a capture, from a position and a stream on, gives the messages if and only if all of them return. */
  lemma {:induction false} SplitExactly(split: Splitter, setup: Setup, data: seq<Byte>, pos: nat, ms: seq<Message>,
                                        parts: seq<seq<Byte>>, index: nat, fed: seq<seq<Byte>>)
    requires Splits(split, setup.layout, OpenerOf(setup), data)
    requires setup.layout.Modern? && setup.decrypt && Invertible(setup.cipher)
    requires |ms| == |parts| && Packed(setup, ms, parts) && pos <= |data| && data[pos..] == Concat(parts)
    ensures split(pos, index, fed) == Ok(FramesOf(ms, parts, index)) <==> AllReturn(setup.codecs, ms, fed)
    decreases |ms|
  {
    if ms == [] {
      SplitEnd(split, setup.layout, OpenerOf(setup), data, index, fed);
    } else {
      ConcatAt(data, pos, parts);
      PackedTail(setup, ms, parts);
      SplitExactly(split, setup, data, pos + |parts[0]|, ms[1..], parts[1..], index + 1, Fed(setup.codecs, ms[0], fed));
      ModernFirst(split, setup, data, pos, ms[0], parts[0], index, fed, FramesOf(ms[1..], parts[1..], index + 1));
    }
  }

  /** A modern frame is read as the one that was sent exactly if its message returns, and then the stream is as it should be. */
  lemma FirstReads(setup: Setup, data: seq<Byte>, pos: nat, m: Message, part: seq<Byte>, index: nat, fed: seq<seq<Byte>>)
    requires setup.layout.Modern? && setup.decrypt && Invertible(setup.cipher)
    requires ModernFrame(setup.cipher, setup.codecs, m.body, m.sequence, m.compress) == Ok(part)
    requires pos + |part| <= |data| && data[pos..pos + |part|] == part
    ensures pos + 2 <= |data|
    ensures var r := ReadFrame(setup.layout, OpenerOf(setup), data, pos, index, fed);
            if Returns(setup.codecs, m, fed)
            then r == Ok(Read(FrameOf(m, index, part), pos + |part|, Fed(setup.codecs, m, fed)))
            else r.Err? || r.value.frame != FrameOf(m, index, part)
  {
    ModernReads(setup, m, part, data, pos, index, fed);
    ModernPlainOpens(setup.codecs, m, fed);
  }

  lemma ModernFirst(split: Splitter, setup: Setup, data: seq<Byte>, pos: nat, m: Message, part: seq<Byte>, index: nat,
                    fed: seq<seq<Byte>>, rest: seq<Frame>)
    requires Splits(split, setup.layout, OpenerOf(setup), data)
    requires setup.layout.Modern? && setup.decrypt && Invertible(setup.cipher)
    requires ModernFrame(setup.cipher, setup.codecs, m.body, m.sequence, m.compress) == Ok(part)
    requires pos + |part| <= |data| && data[pos..pos + |part|] == part
    ensures split(pos, index, fed) == Ok([FrameOf(m, index, part)] + rest)
            <==> Returns(setup.codecs, m, fed) && split(pos + |part|, index + 1, Fed(setup.codecs, m, fed)) == Ok(rest)
  {
    var open, fed' := OpenerOf(setup), Fed(setup.codecs, m, fed);
    assert split(pos, index, fed) == SplitFrom(setup.layout, open, data, pos, index, fed);
    assert split(pos + |part|, index + 1, fed') == SplitFrom(setup.layout, open, data, pos + |part|, index + 1, fed');
    FirstReads(setup, data, pos, m, part, index, fed);
    SplitMore(setup.layout, open, data, pos, index, fed, FrameOf(m, index, part), rest);
  }

  lemma PackedTail(setup: Setup, ms: seq<Message>, parts: seq<seq<Byte>>)
    requires |ms| == |parts| && ms != [] && Packed(setup, ms, parts)
    ensures Packed(setup, ms[1..], parts[1..])
    ensures ModernFrame(setup.cipher, setup.codecs, ms[0].body, ms[0].sequence, ms[0].compress) == Ok(parts[0])
  {
    forall i | 0 <= i < |ms| - 1
      ensures ModernFrame(setup.cipher, setup.codecs, ms[1..][i].body, ms[1..][i].sequence, ms[1..][i].compress) == Ok(parts[1..][i])
    {
      assert ms[1..][i] == ms[i + 1] && parts[1..][i] == parts[i + 1];
    }
  }

  /** A capture splits into a frame and others exactly if the frame is read first and the others after it. */
  lemma SplitMore(layout: Layout, open: Opener, data: seq<Byte>, pos: nat, index: nat, fed: seq<seq<Byte>>,
                  frame: Frame, rest: seq<Frame>)
    requires pos + 2 <= |data|
    ensures SplitFrom(layout, open, data, pos, index, fed) == Ok([frame] + rest)
            <==> var r := ReadFrame(layout, open, data, pos, index, fed);
                 r.Ok? && r.value.frame == frame && SplitFrom(layout, open, data, r.value.next, index + 1, r.value.fed) == Ok(rest)
  {
    var r := ReadFrame(layout, open, data, pos, index, fed);
    if r.Ok? {
      var others := SplitFrom(layout, open, data, r.value.next, index + 1, r.value.fed);
      if others.Ok? {
        FirstFrame(r.value.frame, others.value, frame, rest);
      }
    }
  }

  lemma FirstFrame(a: Frame, s: seq<Frame>, b: Frame, t: seq<Frame>)
    ensures [a] + s == [b] + t <==> a == b && s == t
  {
    assert ([a] + s)[0] == a && ([a] + s)[1..] == s;
    assert ([b] + t)[0] == b && ([b] + t)[1..] == t;
  }

  /**
   split_frames on any run of modern frames, compressed or not, gives back bodies, sequence numbers and
   flags, in order, if and only if no sequence number has its high bit set and every compressed body is
   decompressed, on its own or by the stream that the frames before it have fed.
   */
  lemma ModernRoundTrip(setup: Setup, messages: seq<Message>, parts: seq<seq<Byte>>)
    requires setup.layout.Modern? && setup.decrypt && Invertible(setup.cipher) && |parts| == |messages|
    requires Packed(setup, messages, parts)
    ensures Split(setup, Concat(parts)) == Ok(seq(|messages|, i requires 0 <= i < |messages| =>
              Frame(i, messages[i].sequence, messages[i].body, messages[i].compress, |parts[i]|)))
            <==> AllReturn(setup.codecs, messages, [])
  {
    var frames := seq(|messages|, i requires 0 <= i < |messages| =>
      Frame(i, messages[i].sequence, messages[i].body, messages[i].compress, |parts[i]|));
    FramesCount(messages, parts, 0);
    forall i | 0 <= i < |messages| ensures frames[i] == FramesOf(messages, parts, 0)[i] {
      FramesAt(messages, parts, 0, i);
    }
    assert frames == FramesOf(messages, parts, 0);
    SplitExactly(SplitterOf(setup.layout, OpenerOf(setup), Concat(parts)), setup, Concat(parts), 0, messages, parts, 0, []);
  }

  /** An uncompressed, empty frame with sequence number 2^31 packs, and whatever the codec it is not read back. */
  lemma HighSequenceMisread(setup: Setup)
    requires setup.layout.Modern? && setup.decrypt && Invertible(setup.cipher)
    ensures var part := ModernFrame(setup.cipher, setup.codecs, [], HIGH_BIT, false);
            && part.Ok?
            && Split(setup, part.value) != Ok([Frame(0, HIGH_BIT, [], false, |part.value|)])
  {
    var part := ModernFrame(setup.cipher, setup.codecs, [], HIGH_BIT, false).value;
    var m := Message([], HIGH_BIT, false);
    assert [m][1..] == [];
    assert Concat([part][1..]) == [];
    assert Concat([part]) == part + Concat([part][1..]) == part;
    SplitExactly(SplitterOf(setup.layout, OpenerOf(setup), part), setup, part, 0, [m], [part], 0, []);
    assert FramesOf([m], [part], 0) == [FrameOf(m, 0, part)];
    assert !Returns(setup.codecs, m, []);
  }
}
