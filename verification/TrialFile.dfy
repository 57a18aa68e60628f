/**
 * The file that trial samples are exported to: a magic value, a header and then the samples, each message preceded by
 * its length on four bytes.
 *
 * How messages become bytes is a parameter: an encoding with its decoding.
 */
module TrialFiles {
  import opened Common

  const WORD: nat := 0x1_0000_0000

  datatype Codec<!T> = Codec(enc: T -> bytes, dec: bytes -> Option<T>)

  ghost predicate Inverse<T(!new)>(c: Codec<T>) {
    forall x: T :: c.dec(c.enc(x)) == Some(x)
  }

  /** "COGMENTTRIALS001" */
  const MAGIC: bytes := [67, 79, 71, 77, 69, 78, 84, 84, 82, 73, 65, 76, 83, 48, 48, 49]

  // ---- Frames ----

  function Pow256(k: nat): nat {
    if k == 0 then 1 else 256 * Pow256(k - 1)
  }

  /** The `k` least significant bytes, the least significant first. */
  function LittleEndian(n: nat, k: nat): (b: bytes)
    ensures |b| == k
  {
    if k == 0 then [] else [(n % 256) as byte] + LittleEndian(n / 256, k - 1)
  }

  function FromLittleEndian(b: bytes): nat {
    if b == [] then 0 else b[0] as nat + 256 * FromLittleEndian(b[1..])
  }

  lemma {:induction false} LittleEndianRoundTrip(n: nat, k: nat)
    requires n < Pow256(k)
    ensures FromLittleEndian(LittleEndian(n, k)) == n
  {
    if k > 0 {
      LittleEndianRoundTrip(n / 256, k - 1);
      assert LittleEndian(n, k)[1..] == LittleEndian(n / 256, k - 1);
    }
  }

  function Le32(n: nat): (b: bytes)
    ensures |b| == 4
  {
    LittleEndian(n, 4)
  }

  lemma LengthRoundTrip(n: nat)
    requires n < WORD
    ensures FromLittleEndian(Le32(n)) == n
  {
    assert Pow256(2) == 0x1_0000;
    LittleEndianRoundTrip(n, 4);
  }

  /** The four bytes of a length, the least significant first. */
  lemma LengthIsLittleEndian(n: nat)
    requires n < WORD
    ensures var b := Le32(n);
            n == b[0] as nat + 0x100 * b[1] as nat + 0x1_0000 * b[2] as nat + 0x100_0000 * b[3] as nat
  {
    LengthRoundTrip(n);
    FourBytes(Le32(n));
  }

  lemma FourBytes(b: bytes)
    requires |b| == 4
    ensures FromLittleEndian(b) ==
              b[0] as nat + 0x100 * b[1] as nat + 0x1_0000 * b[2] as nat + 0x100_0000 * b[3] as nat
  {
    assert FromLittleEndian(b[1..][1..][1..]) == b[3] as nat;
    assert FromLittleEndian(b[1..][1..]) == b[2] as nat + 0x100 * b[3] as nat;
    assert FromLittleEndian(b[1..]) == b[1] as nat + 0x100 * b[2] as nat + 0x1_0000 * b[3] as nat;
  }

  /** The length wraps around at 2^32; the body does not. */
  function Frame(body: bytes): (f: bytes)
    ensures |f| == 4 + |body|
  {
    Le32(|body| % WORD) + body
  }

  function Frames(bodies: seq<bytes>): bytes {
    if bodies == [] then [] else Frame(bodies[0]) + Frames(bodies[1..])
  }

  /** Every body is short enough for its length to be written. */
  ghost predicate AllShort(bodies: seq<bytes>) {
    forall i | 0 <= i < |bodies| :: |bodies[i]| < WORD
  }

  // ---- Reading ----

  datatype ReadError = EndOfFile | UnexpectedEnd | ShortRead | BadMagic | Undecodable | WrongState

  datatype Read<+T> = Got(value: T, rest: bytes) | Failed(error: ReadError)

  /**
   * One message.  `emptyEnds` tells whether a reader at its end answers a request for no bytes with the end of the
   * file, as a reader of a buffer does, or with no bytes, as a file does.
   */
  function ReadFrame(input: bytes, emptyEnds: bool): (r: Read<bytes>)
    ensures r.Got? ==> |r.rest| < |input|
  {
    if input == [] then Failed(EndOfFile)
    else if |input| < 4 then Failed(UnexpectedEnd)
    else
      var size, rest := FromLittleEndian(input[..4]), input[4..];
      if rest == [] && (size > 0 || emptyEnds) then Failed(EndOfFile)
      else if |rest| < size then Failed(ShortRead)
      else Got(rest[..size], rest[size..])
  }

  function ReadMessage<T>(c: Codec<T>, input: bytes, emptyEnds: bool): Read<T> {
    match ReadFrame(input, emptyEnds)
    case Failed(e) => Failed(e)
    case Got(body, rest) => if c.dec(body).Some? then Got(c.dec(body).value, rest) else Failed(Undecodable)
  }

  /** The samples read until the first error, and that error. */
  function ReadSamples<T>(c: Codec<T>, input: bytes, emptyEnds: bool): (seq<T>, ReadError)
    decreases |input|
  {
    match ReadFrame(input, emptyEnds)
    case Failed(e) => ([], e)
    case Got(body, rest) =>
      if c.dec(body).None? then ([], Undecodable)
      else
        var (samples, e) := ReadSamples(c, rest, emptyEnds);
        ([c.dec(body).value] + samples, e)
  }

  /** The bodies read until the first error, and that error. */
  function ReadBodies(input: bytes, emptyEnds: bool): (seq<bytes>, ReadError)
    decreases |input|
  {
    match ReadFrame(input, emptyEnds)
    case Failed(e) => ([], e)
    case Got(body, rest) => ([body] + ReadBodies(rest, emptyEnds).0, ReadBodies(rest, emptyEnds).1)
  }

  lemma NextSample<T>(c: Codec<T>, input: bytes, emptyEnds: bool)
    ensures ReadSamples(c, input, emptyEnds) ==
      match ReadMessage(c, input, emptyEnds)
      case Failed(e) => ([], e)
      case Got(x, rest) => ([x] + ReadSamples(c, rest, emptyEnds).0, ReadSamples(c, rest, emptyEnds).1)
  {
  }

  function ReadMagic(input: bytes, magic: bytes): Read<()> {
    if input == [] then Failed(EndOfFile)
    else if |input| < |magic| then Failed(ShortRead)
    else if input[..|magic|] != magic then Failed(BadMagic)
    else Got((), input[|magic|..])
  }

  function ReadHeader<H>(c: Codec<H>, input: bytes, magic: bytes, emptyEnds: bool): Read<H> {
    match ReadMagic(input, magic)
    case Failed(e) => Failed(e)
    case Got(_, rest) => ReadMessage(c, rest, emptyEnds)
  }

  /** A message that is read is what follows its length, which it has; and nothing else of the input is taken. */
  lemma FrameRead(input: bytes, emptyEnds: bool)
    ensures var r := ReadFrame(input, emptyEnds);
            r.Got? ==>
              && |input| >= 4 && input == input[..4] + r.value + r.rest
              && |r.value| == input[0] as nat + 0x100 * input[1] as nat + 0x1_0000 * input[2] as nat
                                + 0x100_0000 * input[3] as nat
  {
    if ReadFrame(input, emptyEnds).Got? {
      FourBytes(input[..4]);
    }
  }

  /** A header is read only after the magic value. */
  lemma HeaderNeedsMagic<H>(c: Codec<H>, input: bytes, magic: bytes, emptyEnds: bool)
    ensures ReadHeader(c, input, magic, emptyEnds).Got? ==> magic <= input
    ensures |input| >= |magic| > 0 && !(magic <= input) ==> ReadHeader(c, input, magic, emptyEnds) == Failed(BadMagic)
  {
  }

  // ---- One frame at a time ----

  /** A frame followed by more bytes is read back, unless it is empty and the last. */
  lemma ReadBack(body: bytes, more: bytes, emptyEnds: bool)
    requires |body| < WORD
    ensures ReadFrame(Frame(body) + more, emptyEnds) ==
              if body == [] && more == [] && emptyEnds then Failed(EndOfFile) else Got(body, more)
  {
    var input := Frame(body) + more;
    LengthRoundTrip(|body|);
    assert input[..4] == Le32(|body|);
    assert input[4..] == body + more;
    assert (body + more)[..|body|] == body && (body + more)[|body|..] == more;
  }

  lemma CutParts(body: bytes, n: nat)
    requires 4 <= n < |Frame(body)|
    ensures Frame(body)[..n][..4] == Le32(|body| % WORD) && Frame(body)[..n][4..] == body[..n - 4]
  {
  }

  /** What is read of a frame that was cut. */
  lemma ReadCut(body: bytes, n: nat, emptyEnds: bool)
    requires |body| < WORD && n < |Frame(body)|
    ensures ReadFrame(Frame(body)[..n], emptyEnds) ==
              Failed(if n == 0 || n == 4 then EndOfFile else if n < 4 then UnexpectedEnd else ShortRead)
  {
    if n >= 4 {
      CutParts(body, n);
      LengthRoundTrip(|body|);
    }
  }

  // ---- Round trip ----

  /** Reading on after a frame. */
  lemma ReadOn(body: bytes, more: bytes, emptyEnds: bool)
    requires |body| < WORD
    ensures var (bodies, e) := ReadBodies(more, emptyEnds);
            ReadBodies(Frame(body) + more, emptyEnds) ==
              if body == [] && more == [] && emptyEnds then ([], EndOfFile) else ([body] + bodies, e)
  {
    ReadBack(body, more, emptyEnds);
  }

  /** The last body is lost on a reader that takes its emptiness for the end of the file. */
  predicate LastIsLost(bodies: seq<bytes>, emptyEnds: bool) {
    bodies != [] && bodies[|bodies| - 1] == [] && emptyEnds
  }

  function WithoutLost(bodies: seq<bytes>, emptyEnds: bool): seq<bytes> {
    if LastIsLost(bodies, emptyEnds) then bodies[..|bodies| - 1] else bodies
  }

  lemma LostInTail(bodies: seq<bytes>, emptyEnds: bool)
    requires |bodies| > 1
    ensures WithoutLost(bodies, emptyEnds) == [bodies[0]] + WithoutLost(bodies[1..], emptyEnds)
  {
    assert bodies[1..][|bodies| - 2] == bodies[|bodies| - 1];
    assert bodies == [bodies[0]] + bodies[1..];
    assert bodies[..|bodies| - 1] == [bodies[0]] + bodies[1..][..|bodies| - 2];
  }

  lemma MoreFrames(bodies: seq<bytes>)
    requires bodies != []
    ensures Frames(bodies) != []
  {
  }

  /** All bodies are read back, or all but a last empty one; either way the end looks regular. */
  lemma {:induction false} BodiesRoundTrip(bodies: seq<bytes>, emptyEnds: bool)
    requires AllShort(bodies)
    ensures ReadBodies(Frames(bodies), emptyEnds) == (WithoutLost(bodies, emptyEnds), EndOfFile)
  {
    if bodies != [] {
      ReadOn(bodies[0], Frames(bodies[1..]), emptyEnds);
      if |bodies| == 1 {
        assert Frames(bodies[1..]) == [];
        assert ReadBodies([], emptyEnds) == ([], EndOfFile);
        assert [bodies[0]] + [] == bodies && bodies[..0] == [];
      } else {
        MoreFrames(bodies[1..]);
        BodiesRoundTrip(bodies[1..], emptyEnds);
        LostInTail(bodies, emptyEnds);
      }
    }
  }

  function Encoded<T>(c: Codec<T>, xs: seq<T>): (bodies: seq<bytes>)
    ensures |bodies| == |xs| && forall i | 0 <= i < |bodies| :: bodies[i] == c.enc(xs[i])
  {
    seq(|xs|, i requires 0 <= i < |xs| => c.enc(xs[i]))
  }

  /** What is read of bodies that encode samples is those samples. */
  lemma {:induction false} DecodedBodies<T(!new)>(c: Codec<T>, input: bytes, emptyEnds: bool, xs: seq<T>)
    requires Inverse(c) && ReadBodies(input, emptyEnds).0 == Encoded(c, xs)
    ensures ReadSamples(c, input, emptyEnds) == (xs, ReadBodies(input, emptyEnds).1)
    decreases |input|
  {
    match ReadFrame(input, emptyEnds) {
      case Failed(e) =>
      case Got(body, rest) =>
        var bodies := ReadBodies(input, emptyEnds).0;
        assert bodies[0] == body && bodies[1..] == ReadBodies(rest, emptyEnds).0;
        assert bodies[0] == c.enc(xs[0]);
        assert Encoded(c, xs)[1..] == Encoded(c, xs[1..]);
        DecodedBodies(c, rest, emptyEnds, xs[1..]);
        assert xs == [xs[0]] + xs[1..];
    }
  }

  lemma EncodedPrefix<T>(c: Codec<T>, xs: seq<T>, bodies: seq<bytes>)
    requires bodies <= Encoded(c, xs)
    ensures bodies == Encoded(c, xs[..|bodies|])
  {
  }

  function FileOf<H, S>(magic: bytes, hc: Codec<H>, sc: Codec<S>, header: H, samples: seq<S>): bytes {
    magic + (Frame(hc.enc(header)) + Frames(Encoded(sc, samples)))
  }

  lemma MagicRead(more: bytes, magic: bytes)
    requires magic != []
    ensures ReadMagic(magic + more, magic) == Got((), more)
  {
    assert (magic + more)[..|magic|] == magic && (magic + more)[|magic|..] == more;
  }

  /** Some message is lost at the end of the file. */
  predicate FileLosesLast(header: bytes, bodies: seq<bytes>, emptyEnds: bool) {
    if bodies == [] then header == [] && emptyEnds else LastIsLost(bodies, emptyEnds)
  }

  /** Samples are read back, but for a last one that is lost. */
  lemma SamplesRoundTrip<T(!new)>(c: Codec<T>, xs: seq<T>, emptyEnds: bool)
    requires Inverse(c) && AllShort(Encoded(c, xs))
    ensures var bodies := Encoded(c, xs);
            ReadSamples(c, Frames(bodies), emptyEnds) ==
              (if LastIsLost(bodies, emptyEnds) then xs[..|xs| - 1] else xs, EndOfFile)
  {
    var got := WithoutLost(Encoded(c, xs), emptyEnds);
    BodiesRoundTrip(Encoded(c, xs), emptyEnds);
    EncodedPrefix(c, xs, got);
    DecodedBodies(c, Frames(Encoded(c, xs)), emptyEnds, xs[..|got|]);
    assert xs[..|xs|] == xs;
  }

  lemma HeaderRoundTrip<H(!new)>(magic: bytes, hc: Codec<H>, header: H, more: bytes, emptyEnds: bool)
    requires magic != [] && Inverse(hc) && |hc.enc(header)| < WORD
    ensures ReadHeader(hc, magic + (Frame(hc.enc(header)) + more), magic, emptyEnds) ==
              if hc.enc(header) == [] && more == [] && emptyEnds then Failed(EndOfFile) else Got(header, more)
  {
    MagicRead(Frame(hc.enc(header)) + more, magic);
    ReadBack(hc.enc(header), more, emptyEnds);
  }

  /**
   * The header and the samples that were written are read back, and then the end of the file, exactly when the last
   * message is not empty or the reader does not take an empty read for the end.
   */
  lemma FileRoundTrip<H(!new), S(!new)>(
    magic: bytes, hc: Codec<H>, sc: Codec<S>, header: H, samples: seq<S>, emptyEnds: bool)
    requires magic != [] && Inverse(hc) && Inverse(sc) && |hc.enc(header)| < WORD && AllShort(Encoded(sc, samples))
    ensures var r := ReadHeader(hc, FileOf(magic, hc, sc, header, samples), magic, emptyEnds);
            && (r.Got? && r.value == header && ReadSamples(sc, r.rest, emptyEnds) == (samples, EndOfFile) <==>
                !FileLosesLast(hc.enc(header), Encoded(sc, samples), emptyEnds))
  {
    var bodies := Encoded(sc, samples);
    HeaderRoundTrip(magic, hc, header, Frames(bodies), emptyEnds);
    SamplesRoundTrip(sc, samples, emptyEnds);
    if bodies != [] {
      MoreFrames(bodies);
      assert |samples[..|samples| - 1]| != |samples|;
    }
  }

  // ---- Truncation ----

  /** Where a cut file looks complete: after a whole number of messages, or after the length of the next one. */
  ghost predicate LooksComplete(bodies: seq<bytes>, n: nat)
    decreases |bodies|
  {
    || n == 0
    || (bodies != [] && n == 4)
    || (bodies != [] && n >= |Frame(bodies[0])| && LooksComplete(bodies[1..], n - |Frame(bodies[0])|))
  }

  /** How many messages lie wholly within the first `n` bytes. */
  ghost function Whole(bodies: seq<bytes>, n: nat): (k: nat)
    ensures k <= |bodies|
  {
    if bodies == [] || n < |Frame(bodies[0])| then 0 else 1 + Whole(bodies[1..], n - |Frame(bodies[0])|)
  }

  lemma CutInFirst(first: bytes, more: bytes, n: nat)
    requires n <= |first| + |more|
    ensures (first + more)[..n] == if n < |first| then first[..n] else first + more[..n - |first|]
  {
  }

  /**
   * Whatever is left of the bodies, they are read as a prefix of what was written: all whole ones, but maybe an empty
   * one at the cut; and the end looks regular exactly at the places of `LooksComplete`.
   */
  lemma {:induction false} TruncatedBodies(bodies: seq<bytes>, n: nat, emptyEnds: bool)
    requires AllShort(bodies) && n <= |Frames(bodies)|
    ensures var (got, e) := ReadBodies(Frames(bodies)[..n], emptyEnds);
            && got <= bodies
            && (e == EndOfFile <==> LooksComplete(bodies, n))
            && Whole(bodies, n) - (if emptyEnds then 1 else 0) <= |got| <= Whole(bodies, n)
  {
    if bodies != [] {
      var first, m, more := Frame(bodies[0]), |Frame(bodies[0])|, Frames(bodies[1..]);
      CutInFirst(first, more, n);
      if n < m {
        ReadCut(bodies[0], n, emptyEnds);
      } else {
        ReadOn(bodies[0], more[..n - m], emptyEnds);
        TruncatedBodies(bodies[1..], n - m, emptyEnds);
        assert bodies == [bodies[0]] + bodies[1..];
      }
    }
  }

  /** The same for samples. */
  lemma TruncatedSamples<T(!new)>(c: Codec<T>, xs: seq<T>, n: nat, emptyEnds: bool)
    requires Inverse(c) && AllShort(Encoded(c, xs)) && n <= |Frames(Encoded(c, xs))|
    ensures var (ys, e) := ReadSamples(c, Frames(Encoded(c, xs))[..n], emptyEnds);
            && ys <= xs
            && (e == EndOfFile <==> LooksComplete(Encoded(c, xs), n))
            && Whole(Encoded(c, xs), n) - (if emptyEnds then 1 else 0) <= |ys| <= Whole(Encoded(c, xs), n)
  {
    var bodies := Encoded(c, xs);
    var input := Frames(bodies)[..n];
    TruncatedBodies(bodies, n, emptyEnds);
    var got := ReadBodies(input, emptyEnds).0;
    EncodedPrefix(c, xs, got);
    DecodedBodies(c, input, emptyEnds, xs[..|got|]);
  }

  /** A file cut before its header is whole gives no header. */
  lemma TruncatedHeader<H(!new), S(!new)>(
    magic: bytes, hc: Codec<H>, sc: Codec<S>, header: H, samples: seq<S>, n: nat, emptyEnds: bool)
    requires magic != [] && |hc.enc(header)| < WORD && n < |magic| + |Frame(hc.enc(header))|
    ensures |FileOf(magic, hc, sc, header, samples)| >= |magic| + |Frame(hc.enc(header))|
    ensures ReadHeader(hc, FileOf(magic, hc, sc, header, samples)[..n], magic, emptyEnds).Failed?
  {
    var head, more := Frame(hc.enc(header)), Frames(Encoded(sc, samples));
    CutInFirst(magic, head + more, n);
    if n >= |magic| {
      MagicRead((head + more)[..n - |magic|], magic);
      CutInFirst(head, more, n - |magic|);
      ReadCut(hc.enc(header), n - |magic|, emptyEnds);
    }
  }

  /** Reading a file cut after its header gives the header, unless it is empty, and a prefix of the samples. */
  lemma TruncatedFile<H(!new), S(!new)>(
    magic: bytes, hc: Codec<H>, sc: Codec<S>, header: H, samples: seq<S>, n: nat, emptyEnds: bool)
    requires magic != [] && Inverse(hc) && Inverse(sc) && |hc.enc(header)| < WORD && AllShort(Encoded(sc, samples))
    requires n <= |Frames(Encoded(sc, samples))|
    ensures var file, head := FileOf(magic, hc, sc, header, samples), |magic| + |Frame(hc.enc(header))|;
            && head + n <= |file|
            && var r := ReadHeader(hc, file[..head + n], magic, emptyEnds);
            && (r.Failed? <==> hc.enc(header) == [] && n == 0 && emptyEnds)
            && (r.Got? ==> r.value == header && r.rest == Frames(Encoded(sc, samples))[..n])
  {
    var head, more := Frame(hc.enc(header)), Frames(Encoded(sc, samples));
    CutTwice(magic, head, more, n);
    HeaderRoundTrip(magic, hc, header, more[..n], emptyEnds);
  }

  lemma CutTwice(a: bytes, b: bytes, c: bytes, n: nat)
    requires n <= |c|
    ensures (a + (b + c))[..|a| + |b| + n] == a + (b + c[..n])
  {
  }

  // ---- Writing ----

  /**
   * What a writer has done: `room` more bytes can be written before the underlying writer fails, which it does after
   * having written what fits.  `counter` is what the writer reports.
   */
  datatype Written = Written(output: bytes, room: nat, counter: nat, ok: bool)

  function Fitting(room: nat, p: bytes): bytes {
    if |p| <= room then p else p[..room]
  }

  /** A partly written length is not counted. */
  function WroteFrame(w: Written, body: bytes): Written {
    if !w.ok then w
    else if w.room < 4 then Written(w.output + Le32(|body| % WORD)[..w.room], 0, w.counter, false)
    else
      var n := |Fitting(w.room - 4, body)|;
      Written(w.output + Le32(|body| % WORD) + Fitting(w.room - 4, body), w.room - 4 - n, w.counter + 4 + n,
              n == |body|)
  }

  function WroteMagic(room: nat, magic: bytes): Written {
    var p := Fitting(room, magic);
    Written(p, room - |p|, |p|, |p| == |magic|)
  }

  function WroteAll(w: Written, bodies: seq<bytes>): Written
    decreases |bodies|
  {
    if bodies == [] then w else WroteAll(WroteFrame(w, bodies[0]), bodies[1..])
  }

  /** The room ends within the length of a message. */
  ghost predicate CutsALength(bodies: seq<bytes>, room: nat)
    decreases |bodies|
  {
    || (bodies != [] && 0 < room < 4)
    || (bodies != [] && room >= |Frame(bodies[0])| && CutsALength(bodies[1..], room - |Frame(bodies[0])|))
  }

  /** Nothing more happens after a failure. */
  lemma {:induction false} FailureStays(w: Written, bodies: seq<bytes>)
    requires !w.ok
    ensures WroteAll(w, bodies) == w
    decreases |bodies|
  {
    if bodies != [] {
      FailureStays(w, bodies[1..]);
    }
  }

  /**
   * The output is as much of the frames as there is room for, and the
   * counter is its length unless a length was cut.
   */
  lemma {:induction false} WritingIsExact(w: Written, bodies: seq<bytes>)
    requires w.ok && w.counter == |w.output|
    ensures var v := WroteAll(w, bodies);
            && v.output == w.output + Fitting(w.room, Frames(bodies))
            && (v.ok <==> |Frames(bodies)| <= w.room)
            && (v.counter == |v.output| <==> !CutsALength(bodies, w.room))
    decreases |bodies|
  {
    if bodies == [] {
      assert w.output + [] == w.output;
    } else {
      var v, first, more := WroteFrame(w, bodies[0]), Frame(bodies[0]), Frames(bodies[1..]);
      FittingMore(w.room, first, more);
      if w.room < |first| {
        FailureStays(v, bodies[1..]);
        CutFrame(w, bodies[0]);
      } else {
        WholeFrame(w, bodies[0]);
        WritingIsExact(v, bodies[1..]);
        AddedInTurn(w.output, first, Fitting(v.room, more));
      }
    }
  }

  lemma FittingMore(room: nat, first: bytes, more: bytes)
    ensures Fitting(room, first + more) ==
              if room < |first| then first[..room] else first + Fitting(room - |first|, more)
  {
  }

  lemma AddedInTurn(a: bytes, b: bytes, c: bytes)
    ensures (a + b) + c == a + (b + c)
  {
  }

  lemma WholeFrame(w: Written, body: bytes)
    requires w.ok && w.room >= |Frame(body)|
    ensures WroteFrame(w, body) ==
              Written(w.output + Frame(body), w.room - |Frame(body)|, w.counter + |Frame(body)|, true)
  {
    AddedInTurn(w.output, Le32(|body| % WORD), body);
  }

  lemma CutFrame(w: Written, body: bytes)
    requires w.ok && w.counter == |w.output| && w.room < |Frame(body)|
    ensures var v := WroteFrame(w, body);
            && v.output == w.output + Frame(body)[..w.room] && !v.ok
            && (v.counter == |v.output| <==> w.room == 0 || w.room >= 4)
  {
    if w.room >= 4 {
      assert Frame(body)[..w.room] == Le32(|body| % WORD) + body[..w.room - 4];
    } else {
      assert Frame(body)[..w.room] == Le32(|body| % WORD)[..w.room];
    }
  }

  /** With room for all of it the file is written whole, and the counter is its length. */
  lemma FileIsWritten<H, S>(magic: bytes, hc: Codec<H>, sc: Codec<S>, header: H, samples: seq<S>, room: nat)
    requires |FileOf(magic, hc, sc, header, samples)| <= room
    ensures var w := WroteAll(WroteMagic(room, magic), [hc.enc(header)] + Encoded(sc, samples));
            w.ok && w.output == FileOf(magic, hc, sc, header, samples) && w.counter == |w.output|
  {
    var bodies := [hc.enc(header)] + Encoded(sc, samples);
    assert bodies[1..] == Encoded(sc, samples);
    assert Frames(bodies) == Frame(hc.enc(header)) + Frames(Encoded(sc, samples));
    WritingIsExact(WroteMagic(room, magic), bodies);
    EnoughRoom(bodies, room - |magic|);
  }

  lemma {:induction false} EnoughRoom(bodies: seq<bytes>, room: nat)
    requires |Frames(bodies)| <= room
    ensures !CutsALength(bodies, room)
    decreases |bodies|
  {
    if bodies != [] {
      EnoughRoom(bodies[1..], room - |Frame(bodies[0])|);
    }
  }
}

/** The writer and the reader as objects. */
module TrialFileObjects {
  import opened Common
  import opened TrialFiles

  datatype State = ExpectHeader | ExpectSamples | Failure

  class TrialSamplesFileWriter {
    const magicValue: bytes
    var output: bytes
    var room: nat
    var state: State
    var counter: nat

    ghost function View(): Written
      reads this
    {
      Written(output, room, counter, state != Failure)
    }

    constructor (magicValue: bytes, room: nat)
      ensures this.magicValue == magicValue && this.room == room
      ensures output == [] && counter == 0 && state == ExpectHeader
    {
      this.magicValue, this.room := magicValue, room;
      output, counter, state := [], 0, ExpectHeader;
    }

    /** The underlying writer: it writes what fits, and fails when that is not all. */
    method Write(p: bytes) returns (n: nat, ok: bool)
      modifies this`output, this`room
      ensures n == |Fitting(old(room), p)| && ok == (n == |p|)
      ensures output == old(output) + Fitting(old(room), p) && room == old(room) - n
    {
      n := if |p| <= room then |p| else room;
      output := output + p[..n];
      assert n == |p| ==> p[..n] == p;
      room := room - n;
      ok := n == |p|;
    }

    method WriteMessage(body: bytes) returns (written: nat, ok: bool)
      modifies this`output, this`room
      ensures var w := WroteFrame(Written(old(output), old(room), 0, true), body);
              output == w.output && room == w.room && written == w.counter && ok == w.ok
    {
      written := 0;
      var size := Le32(|body| % WORD);
      var n: nat;
      n, ok := Write(size);
      if !ok {
        return;
      }
      written := 4;
      n, ok := Write(body);
      written := written + n;
    }

    method WriteHeader(body: bytes) returns (ok: bool)
      modifies this
      ensures old(state) != ExpectHeader ==> !ok && View() == old(View()) && state == old(state)
      ensures old(state) == ExpectHeader && old(output) == [] && old(counter) == 0 ==>
                View() == WroteFrame(WroteMagic(old(room), magicValue), body) && ok == View().ok
                && state == if ok then ExpectSamples else Failure
    {
      if state != ExpectHeader {
        return false;
      }
      var n: nat;
      n, ok := Write(magicValue);
      counter := counter + n;
      if !ok {
        state := Failure;
        return;
      }
      n, ok := WriteMessage(body);
      counter := counter + n;
      state := if ok then ExpectSamples else Failure;
    }

    method WriteSample(body: bytes) returns (ok: bool)
      modifies this
      ensures old(state) != ExpectSamples ==> !ok && View() == old(View()) && state == old(state)
      ensures old(state) == ExpectSamples ==>
                View() == WroteFrame(old(View()), body) && ok == View().ok
                && state == if ok then ExpectSamples else Failure
    {
      if state != ExpectSamples {
        return false;
      }
      var n: nat;
      n, ok := WriteMessage(body);
      counter := counter + n;
      if !ok {
        state := Failure;
      }
    }
  }

  class TrialSamplesFileReader<H, S> {
    const magicValue: bytes
    const headerCodec: Codec<H>
    const sampleCodec: Codec<S>
    const emptyEnds: bool
    var input: bytes  // what has not been read
    var state: State

    constructor (magicValue: bytes, headerCodec: Codec<H>, sampleCodec: Codec<S>, input: bytes, emptyEnds: bool)
      ensures this.magicValue == magicValue
      ensures this.headerCodec == headerCodec && this.sampleCodec == sampleCodec && this.emptyEnds == emptyEnds
      ensures this.input == input && state == ExpectHeader
    {
      this.magicValue := magicValue;
      this.headerCodec, this.sampleCodec, this.emptyEnds := headerCodec, sampleCodec, emptyEnds;
      this.input, state := input, ExpectHeader;
    }

    /** The underlying reader: up to `n` bytes, or None for the end of the file. */
    method ReadSome(n: nat) returns (p: Option<bytes>)
      modifies this`input
      ensures old(input) == [] && (n > 0 || emptyEnds) ==> p.None? && input == []
      ensures old(input) != [] || (n == 0 && !emptyEnds) ==>
                p == Some(if n <= |old(input)| then old(input)[..n] else old(input))
                && input == if n <= |old(input)| then old(input)[n..] else []
    {
      if input == [] && (n > 0 || emptyEnds) {
        return None;
      }
      var k := if n <= |input| then n else |input|;
      p := Some(input[..k]);
      assert k == |input| ==> input[..k] == input && input[k..] == [];
      input := input[k..];
    }

    method ReadFrame() returns (r: Read<bytes>)
      modifies this`input
      ensures r == TrialFiles.ReadFrame(old(input), emptyEnds)
      ensures r.Got? ==> input == r.rest
    {
      var prefix := ReadSome(4);
      if prefix.None? {
        return Failed(EndOfFile);
      }
      if |prefix.value| < 4 {
        return Failed(UnexpectedEnd);
      }
      var size := FromLittleEndian(prefix.value);
      var body := ReadSome(size);
      if body.None? {
        return Failed(EndOfFile);
      }
      if |body.value| != size {
        return Failed(ShortRead);
      }
      r := Got(body.value, input);
    }

    method ReadHeader() returns (r: Read<H>)
      requires magicValue != []
      modifies this
      ensures r == if old(state) != ExpectHeader then Failed(WrongState)
                   else TrialFiles.ReadHeader(headerCodec, old(input), magicValue, emptyEnds)
      ensures r.Got? ==> input == r.rest
      ensures old(state) == ExpectHeader ==> state == if r.Got? then ExpectSamples else Failure
      ensures old(state) != ExpectHeader ==> state == old(state) && input == old(input)
    {
      if state != ExpectHeader {
        return Failed(WrongState);
      }
      state := Failure;
      var magic := ReadSome(|magicValue|);
      if magic.None? {
        return Failed(EndOfFile);
      }
      if |magic.value| != |magicValue| {
        return Failed(ShortRead);
      }
      if magic.value != magicValue {
        return Failed(BadMagic);
      }
      var frame := ReadFrame();
      match frame
      case Failed(e) => r := Failed(e);
      case Got(body, rest) =>
        if headerCodec.dec(body).None? {
          return Failed(Undecodable);
        }
        state := ExpectSamples;
        r := Got(headerCodec.dec(body).value, rest);
    }

    method ReadSample() returns (r: Read<S>)
      modifies this
      ensures r == if old(state) != ExpectSamples then Failed(WrongState)
                   else ReadMessage(sampleCodec, old(input), emptyEnds)
      ensures r.Got? ==> input == r.rest
      ensures old(state) == ExpectSamples ==> state == if r.Got? then ExpectSamples else Failure
      ensures old(state) != ExpectSamples ==> state == old(state) && input == old(input)
    {
      if state != ExpectSamples {
        return Failed(WrongState);
      }
      var frame := ReadFrame();
      match frame
      case Failed(e) =>
        state := Failure;
        r := Failed(e);
      case Got(body, rest) =>
        if sampleCodec.dec(body).None? {
          state := Failure;
          return Failed(Undecodable);
        }
        r := Got(sampleCodec.dec(body).value, rest);
    }

    /** The loop of an import: samples are read until the first error, of which only the end of the file is regular. */
    method ImportSamples() returns (samples: seq<S>, error: ReadError)
      requires state == ExpectSamples
      modifies this
      ensures (samples, error) == ReadSamples(sampleCodec, old(input), emptyEnds)
    {
      samples := [];
      ghost var all := ReadSamples(sampleCodec, input, emptyEnds);
      while true
        invariant state == ExpectSamples
        invariant var rest := ReadSamples(sampleCodec, input, emptyEnds);
                  SplitAt(all.0, samples, rest.0) && all.1 == rest.1
        decreases |input|
      {
        NextSample(sampleCodec, input, emptyEnds);
        var r := ReadSample();
        if r.Failed? {
          SplitEnds(all.0, samples);
          return samples, r.error;
        }
        SplitMore(all.0, samples, r.value, ReadSamples(sampleCodec, input, emptyEnds).0);
        samples := samples + [r.value];
      }
    }
  }

  /** The list is the two parts, one after the other. */
  ghost predicate SplitAt<T>(all: seq<T>, done: seq<T>, rest: seq<T>) {
    |done| <= |all| && all[..|done|] == done && all[|done|..] == rest
  }

  lemma SplitMore<T>(all: seq<T>, done: seq<T>, x: T, rest: seq<T>)
    requires SplitAt(all, done, [x] + rest)
    ensures SplitAt(all, done + [x], rest)
  {
    assert all[|done|] == all[|done|..][0] == x;
    assert all[|done| + 1..] == all[|done|..][1..];
  }

  lemma SplitEnds<T>(all: seq<T>, done: seq<T>)
    requires SplitAt(all, done, [])
    ensures all == done
  {
  }

  method CreateTrialSamplesFileWriter(room: nat) returns (writer: TrialSamplesFileWriter)
    ensures fresh(writer) && writer.magicValue == MAGIC && writer.room == room
    ensures writer.output == [] && writer.counter == 0 && writer.state == ExpectHeader
  {
    writer := new TrialSamplesFileWriter(MAGIC, room);
  }

  method CreateTrialSamplesFileReader<H, S>(hc: Codec<H>, sc: Codec<S>, input: bytes, emptyEnds: bool)
    returns (reader: TrialSamplesFileReader<H, S>)
    ensures fresh(reader) && reader.magicValue == MAGIC && reader.headerCodec == hc && reader.sampleCodec == sc
    ensures reader.emptyEnds == emptyEnds && reader.input == input && reader.state == ExpectHeader
  {
    reader := new TrialSamplesFileReader(MAGIC, hc, sc, input, emptyEnds);
  }
}
