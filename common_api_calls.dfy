/**
 * The two calls of src/Fetch/CommonApiCalls.ts that do more than forward a request:
 *
 *  - fetchSceneOutput downloads a stored output in chunks with ranged requests and assembles
 *    the chunks into one fixed-size byte buffer;
 *  - fetchPostVideo derives the upload form's fields from a training configuration and accepts
 *    only status 200 or 202.
 *
 * The network is replaced by its answers: the i-th ranged request of a download is answered by
 * `responses[i]`, and the upload's answer is a status and an already parsed body.
 */
module CommonApiCalls {
  import opened Wrappers
  import opened Responses
  import opened TrainingConfig

  newtype uint8 = x: int | 0 <= x < 256

  /** One answer of the server: its status code and its body bytes. */
  datatype Response = Response(status: int, body: seq<uint8>)

  /** `response.ok`: a status in 200..299. */
  predicate Ok(status: int) { 200 <= status <= 299 }

  /** A chunk answer is used when it is ok or 206 Partial Content (section 15.3.7 of RFC 9110). */
  predicate ChunkAccepted(status: int) { Ok(status) || status == 206 }

  /** An inclusive byte range, sent as `Range: bytes=first-last` (section 14.1.2 of RFC 9110). */
  datatype ByteRange = ByteRange(first: int, last: int)

  // ---------------------------------------------------------------------------------------------
  // Range computation

  /** The size of the assembly buffer: all chunks but the last are full. */
  function TotalSize(chunks: nat, chunkSize: nat, lastChunkSize: nat): (size: int)
    ensures chunks >= 1 ==> size >= lastChunkSize
    ensures chunks >= 1 && 0 < lastChunkSize <= chunkSize ==> (chunks - 1) * chunkSize < size <= chunks * chunkSize
  {
    if chunks >= 1 then MulSucc(chunks - 1, chunkSize); (chunks - 1) * chunkSize + lastChunkSize
    else (chunks - 1) * chunkSize + lastChunkSize
  }

  /** The range requested for chunk i: chunkSize bytes from i*chunkSize, the last one ending at the buffer end. */
  function ChunkRange(i: nat, chunks: nat, chunkSize: nat, lastChunkSize: nat): (r: ByteRange)
    ensures r.first == i * chunkSize
    ensures i != chunks - 1 ==> r.last - r.first + 1 == chunkSize
    ensures i == chunks - 1 ==> r.last - r.first + 1 == lastChunkSize && r.last == TotalSize(chunks, chunkSize, lastChunkSize) - 1
  {
    var start := i * chunkSize;
    ByteRange(start, if i == chunks - 1 then TotalSize(chunks, chunkSize, lastChunkSize) - 1
                     else start + chunkSize - 1)
  }

  /** The ranges of all chunks, in request order. */
  function RequestedRanges(chunks: nat, chunkSize: nat, lastChunkSize: nat): (ranges: seq<ByteRange>)
    ensures |ranges| == chunks
    ensures forall i :: 0 <= i < chunks ==>
              ranges[i].first == i * chunkSize &&
              ranges[i].last - ranges[i].first + 1 == (if i == chunks - 1 then lastChunkSize else chunkSize)
  {
    seq(chunks, i requires 0 <= i => ChunkRange(i, chunks, chunkSize, lastChunkSize))
  }

  predicate InRange(r: ByteRange, b: int) { r.first <= b <= r.last }

  /**
   * With non-empty chunks the requested ranges are contiguous: the first starts at 0, each next one
   * starts right after the previous one ends, all but the last hold chunkSize bytes, and the last
   * holds lastChunkSize bytes and ends at TotalSize - 1.
   */
  lemma RangesContiguous(chunks: nat, chunkSize: nat, lastChunkSize: nat)
    requires chunks >= 1 && chunkSize >= 1 && lastChunkSize >= 1
    ensures var ranges := RequestedRanges(chunks, chunkSize, lastChunkSize);
      && ranges[0].first == 0
      && ranges[chunks - 1].last == TotalSize(chunks, chunkSize, lastChunkSize) - 1
      && ranges[chunks - 1].last - ranges[chunks - 1].first + 1 == lastChunkSize
      && (forall i :: 0 <= i < chunks - 1 ==> ranges[i].last - ranges[i].first + 1 == chunkSize)
      && (forall i :: 0 <= i < chunks - 1 ==> ranges[i].last + 1 == ranges[i + 1].first)
  {
    var ranges := RequestedRanges(chunks, chunkSize, lastChunkSize);
    forall i | 0 <= i < chunks - 1
      ensures ranges[i].last + 1 == ranges[i + 1].first
    {
      calc {
        ranges[i].last + 1;
        i * chunkSize + chunkSize;
        { MulSucc(i, chunkSize); }
        (i + 1) * chunkSize;
      }
    }
  }

  lemma MulSucc(i: nat, c: nat)
    ensures (i + 1) * c == i * c + c
  {
  }

  lemma MulMono(a: nat, b: nat, c: nat)
    requires a <= b
    ensures a * c <= b * c
  {
  }

  /** Integer division pins down the quotient: b / c == i exactly when i*c <= b < i*c + c. */
  lemma DivBetween(b: nat, c: nat, i: nat)
    requires c >= 1
    ensures b / c == i <==> i * c <= b < i * c + c
  {
    var q := b / c;
    assert q * c <= b < q * c + c;
    MulSucc(q, c);
    MulSucc(i, c);
    if q < i {
      MulMono(q + 1, i, c);
    } else if q > i {
      MulMono(i + 1, q, c);
    }
  }

  /** The quotient b / c is at least m exactly when b is at least m*c. */
  lemma DivAtLeast(b: nat, c: nat, m: nat)
    requires c >= 1
    ensures b / c >= m <==> b >= m * c
  {
    var q := b / c;
    assert q * c <= b < q * c + c;
    MulSucc(q, c);
    if q >= m {
      MulMono(m, q, c);
    } else {
      MulMono(q + 1, m, c);
    }
  }

  /** The chunk whose range holds byte b: the quotient b / chunkSize, the last chunk taking the rest. */
  function CoveringChunk(b: nat, chunks: nat, chunkSize: nat): nat
    requires chunks >= 1 && chunkSize >= 1
  {
    Min(b / chunkSize, chunks - 1)
  }

  /**
   * Together the ranges cover exactly [0, TotalSize): byte b lies in the range of chunk i if and
   * only if b is inside the buffer and i is its covering chunk, so every byte is requested once.
   */
  lemma RangesPartition(chunks: nat, chunkSize: nat, lastChunkSize: nat, b: int, i: nat)
    requires chunks >= 1 && chunkSize >= 1 && lastChunkSize >= 1 && i < chunks
    ensures InRange(RequestedRanges(chunks, chunkSize, lastChunkSize)[i], b) <==>
            0 <= b < TotalSize(chunks, chunkSize, lastChunkSize) && i == CoveringChunk(b, chunks, chunkSize)
  {
    var r := RequestedRanges(chunks, chunkSize, lastChunkSize)[i];
    assert r == ChunkRange(i, chunks, chunkSize, lastChunkSize);
    if b >= 0 {
      if i < chunks - 1 {
        InnerChunk(chunks, chunkSize, lastChunkSize, b, i);
      } else {
        DivAtLeast(b, chunkSize, chunks - 1);
      }
    }
  }

  /** RangesPartition for a chunk other than the last one. */
  lemma InnerChunk(chunks: nat, chunkSize: nat, lastChunkSize: nat, b: nat, i: nat)
    requires chunks >= 1 && chunkSize >= 1 && i < chunks - 1
    ensures InRange(ChunkRange(i, chunks, chunkSize, lastChunkSize), b) <==>
            b < TotalSize(chunks, chunkSize, lastChunkSize) && i == CoveringChunk(b, chunks, chunkSize)
  {
    DivBetween(b, chunkSize, i);
    MulSucc(i, chunkSize);
    MulMono(i + 1, chunks - 1, chunkSize);
  }

  // ---------------------------------------------------------------------------------------------
  // Buffer assembly

  /** The bytes of the first k chunks, one after the other. */
  function Received(responses: seq<Response>, k: nat): seq<uint8>
    requires k <= |responses|
  {
    if k == 0 then [] else Received(responses, k - 1) + responses[k - 1].body
  }

  /** The bytes of all chunks, one after the other. */
  function Concat(responses: seq<Response>): seq<uint8> {
    Received(responses, |responses|)
  }

  /** The bytes of fewer chunks are a prefix of the bytes of more chunks. */
  lemma {:induction false} ReceivedPrefix(responses: seq<Response>, j: nat, k: nat)
    requires j <= k <= |responses|
    ensures |Received(responses, j)| <= |Received(responses, k)|
    ensures Received(responses, k)[..|Received(responses, j)|] == Received(responses, j)
    decreases k
  {
    if j < k {
      ReceivedPrefix(responses, j, k - 1);
      var m := |Received(responses, j)|;
      assert Received(responses, k)[..m] == Received(responses, k - 1)[..m];
    }
  }

  /** The ranges of the first k chunks, in request order. */
  function RangesUpTo(chunks: nat, chunkSize: nat, lastChunkSize: nat, k: nat): (ranges: seq<ByteRange>)
    ensures |ranges| == k
  {
    if k == 0 then [] else RangesUpTo(chunks, chunkSize, lastChunkSize, k - 1) + [ChunkRange(k - 1, chunks, chunkSize, lastChunkSize)]
  }

  lemma {:induction false} RangesUpToPrefix(chunks: nat, chunkSize: nat, lastChunkSize: nat, k: nat)
    requires k <= chunks
    ensures RangesUpTo(chunks, chunkSize, lastChunkSize, k) == RequestedRanges(chunks, chunkSize, lastChunkSize)[..k]
  {
    if k > 0 {
      RangesUpToPrefix(chunks, chunkSize, lastChunkSize, k - 1);
    }
  }

  /**
   * How many chunks the download requests, counting from chunk k: it stops after the first chunk
   * that brings the received byte count to totalSize (even a chunk that adds nothing, when
   * totalSize is zero), and otherwise after the last chunk.
   */
  function RequestsFrom(responses: seq<Response>, totalSize: int, k: nat): (n: nat)
    requires k <= |responses|
    ensures k <= n <= |responses|
    ensures k < |responses| ==> k < n
    decreases |responses| - k
  {
    if k == |responses| then k
    else if |Received(responses, k + 1)| >= totalSize then k + 1
    else RequestsFrom(responses, totalSize, k + 1)
  }

  /** The number of chunks a download requests. */
  function Requests(responses: seq<Response>, totalSize: int): nat
  {
    RequestsFrom(responses, totalSize, 0)
  }

  /**
   * The requests stop at the first chunk that fills the buffer: every earlier request left it
   * short, and unless every chunk was requested, the last one requested filled it.
   */
  lemma {:induction false} RequestsStopAtFill(responses: seq<Response>, totalSize: int, k: nat)
    requires k <= |responses|
    ensures var n := RequestsFrom(responses, totalSize, k);
      && (n < |responses| ==> |Received(responses, n)| >= totalSize)
      && (forall j :: k < j < n ==> |Received(responses, j)| < totalSize)
    decreases |responses| - k
  {
    if k < |responses| && |Received(responses, k + 1)| < totalSize {
      var n := RequestsFrom(responses, totalSize, k);
      RequestsStopAtFill(responses, totalSize, k + 1);
      forall j | k < j < n
        ensures |Received(responses, j)| < totalSize
      {
        if j == k + 1 {
        }
      }
    }
  }

  /**
   * `Uint8Array.prototype.set(src, offset)`: src is copied to dst[offset..offset + |src|] and every
   * other byte keeps its value.
   */
  method CopyInto(dst: array<uint8>, offset: nat, src: seq<uint8>)
    requires offset + |src| <= dst.Length
    modifies dst
    ensures dst[..] == old(dst[..offset]) + src + old(dst[offset + |src|..])
  {
    forall j | 0 <= j < |src| {
      dst[offset + j] := src[j];
    }
    assert dst[..] == old(dst[..offset]) + src + old(dst[offset + |src|..]);
  }

  /**
   * What a download came to: whether every answer it used was accepted, the bytes in the buffer
   * (meaningful only when accepted) and how many chunks were requested.
   */
  datatype Download = Download(accepted: bool, content: seq<uint8>, requested: nat)

  /**
   * The download loop as a function, from chunk i on with `content` already in the buffer: a
   * rejected answer ends it unaccepted; an accepted chunk adds at most the free room of the
   * buffer; it ends once the buffer is full or after the last chunk.
   */
  function AssembleFrom(responses: seq<Response>, totalSize: nat, i: nat, content: seq<uint8>): (d: Download)
    requires i <= |responses| && |content| <= totalSize
    ensures i <= d.requested <= |responses|
    decreases |responses| - i
  {
    if i == |responses| then Download(true, content, i)
    else if !ChunkAccepted(responses[i].status) then Download(false, content, i + 1)
    else
      var next := content + responses[i].body[..Min(|responses[i].body|, totalSize - |content|)];
      if |next| >= totalSize then Download(true, next, i + 1)
      else AssembleFrom(responses, totalSize, i + 1, next)
  }

  /** The chunk answers lo..hi-1 are all ok or 206. */
  predicate AcceptedBetween(responses: seq<Response>, lo: nat, hi: nat)
    requires hi <= |responses|
    decreases hi - lo
  {
    lo >= hi || (ChunkAccepted(responses[lo].status) && AcceptedBetween(responses, lo + 1, hi))
  }

  lemma {:induction false} AcceptedBetweenMeans(responses: seq<Response>, lo: nat, hi: nat)
    requires hi <= |responses|
    ensures AcceptedBetween(responses, lo, hi) <==> forall j :: lo <= j < hi ==> ChunkAccepted(responses[j].status)
    decreases hi - lo
  {
    if lo < hi {
      AcceptedBetweenMeans(responses, lo + 1, hi);
    }
  }

  /**
   * The download requests at most the chunks up to the one that fills the buffer, and it is
   * accepted exactly when each answer up to that chunk is ok or 206, all of them being requested.
   */
  lemma {:induction false} AssembleRequests(responses: seq<Response>, totalSize: nat, i: nat, content: seq<uint8>)
    requires i <= |responses| && |content| == |Received(responses, i)| <= totalSize
    requires i == 0 || |content| < totalSize
    ensures var d := AssembleFrom(responses, totalSize, i, content);
      var n := RequestsFrom(responses, totalSize, i);
      && d.requested <= n
      && (d.accepted <==> AcceptedBetween(responses, i, n))
      && (d.accepted ==> d.requested == n)
    decreases |responses| - i
  {
    if i < |responses| && ChunkAccepted(responses[i].status) {
      var next := content + responses[i].body[..Min(|responses[i].body|, totalSize - |content|)];
      if |next| < totalSize {
        assert |next| == |Received(responses, i + 1)|;
        AssembleRequests(responses, totalSize, i + 1, next);
      }
    }
  }

  /**
   * A download that is not accepted stopped at the first rejected answer: the last chunk it
   * requested was answered with neither ok nor 206, and every earlier one was accepted.
   */
  lemma {:induction false} AssembleRejection(responses: seq<Response>, totalSize: nat, i: nat, content: seq<uint8>)
    requires i <= |responses| && |content| <= totalSize
    ensures var d := AssembleFrom(responses, totalSize, i, content);
      !d.accepted ==>
        && i < d.requested
        && !ChunkAccepted(responses[d.requested - 1].status)
        && AcceptedBetween(responses, i, d.requested - 1)
    decreases |responses| - i
  {
    if i < |responses| && ChunkAccepted(responses[i].status) {
      var next := content + responses[i].body[..Min(|responses[i].body|, totalSize - |content|)];
      if |next| < totalSize {
        AssembleRejection(responses, totalSize, i + 1, next);
      }
    }
  }

  /** An accepted download leaves in the buffer the received bytes, cut at the buffer size. */
  lemma {:induction false} AssembleContent(responses: seq<Response>, totalSize: nat, i: nat, content: seq<uint8>)
    requires i <= |responses| && content == Received(responses, i) && |content| <= totalSize
    requires i == 0 || |content| < totalSize
    ensures var d := AssembleFrom(responses, totalSize, i, content);
      var received := Concat(responses);
      d.accepted ==> d.content == received[..Min(|received|, totalSize)]
    decreases |responses| - i
  {
    if i == |responses| {
      assert content == content[..|content|];
    } else if ChunkAccepted(responses[i].status) {
      var w := Min(|responses[i].body|, totalSize - |content|);
      Step(responses, totalSize, i, w);
      if |content| + w < totalSize {
        AssembleContent(responses, totalSize, i + 1, content + responses[i].body[..w]);
      }
    }
  }

  /**
   * fetchSceneOutput: requests the chunks in order, copying each into a buffer of TotalSize bytes
   * at a running offset, never past the buffer end; stops once the buffer is full and trims the
   * buffer when fewer bytes arrived. A chunk of unexpected size is only logged. A status that is
   * neither ok nor 206, or a negative buffer size (which makes the buffer allocation throw), makes
   * the whole call return null. Returns the result and the ranges that were requested.
   */
  method FetchSceneOutput(chunks: nat, chunkSize: nat, lastChunkSize: nat, responses: seq<Response>)
    returns (output: Option<seq<uint8>>, requests: seq<ByteRange>)
    requires |responses| == chunks
    ensures |requests| <= chunks
    ensures requests == RequestedRanges(chunks, chunkSize, lastChunkSize)[..|requests|]
    ensures TotalSize(chunks, chunkSize, lastChunkSize) < 0 ==> output == None && requests == []
    ensures |requests| <= Requests(responses, TotalSize(chunks, chunkSize, lastChunkSize))
    ensures forall j :: 0 <= j < |requests| - 1 ==> ChunkAccepted(responses[j].status)
    ensures TotalSize(chunks, chunkSize, lastChunkSize) >= 0 ==>
              (output.Some? <==>
               forall j :: 0 <= j < Requests(responses, TotalSize(chunks, chunkSize, lastChunkSize)) ==>
                 ChunkAccepted(responses[j].status))
    ensures output.Some? ==>
              |requests| == Requests(responses, TotalSize(chunks, chunkSize, lastChunkSize))
    ensures TotalSize(chunks, chunkSize, lastChunkSize) >= 0 && output.None? ==>
              |requests| > 0 && !ChunkAccepted(responses[|requests| - 1].status)
    ensures output.Some? ==>
              var received := Concat(responses);
              output.value == received[..Min(|received|, TotalSize(chunks, chunkSize, lastChunkSize))]
  {
    var totalSize := TotalSize(chunks, chunkSize, lastChunkSize);
    if totalSize < 0 {
      return None, [];
    }
    var fullContent := new uint8[totalSize];
    var accepted, offset;
    accepted, offset, requests := AssembleChunks(fullContent, chunks, chunkSize, lastChunkSize, responses);
    RangesUpToPrefix(chunks, chunkSize, lastChunkSize, |requests|);
    AssembleRequests(responses, totalSize, 0, []);
    AssembleRejection(responses, totalSize, 0, []);
    AcceptedBetweenMeans(responses, 0, Requests(responses, totalSize));
    if |requests| > 0 {
      AcceptedBetweenMeans(responses, 0, |requests| - 1);
    }
    AssembleContent(responses, totalSize, 0, []);
    if !accepted {
      return None, requests;
    }
    // Trim the buffer when fewer bytes arrived than expected.
    if offset < totalSize {
      output := Some(fullContent[..offset]);
    } else {
      assert fullContent[..] == fullContent[..offset];
      output := Some(fullContent[..]);
    }
  }

  /**
   * The loop of fetchSceneOutput over the buffer fullContent: requests chunk after chunk, copies
   * each at the running offset, stops once the buffer is full. Reports whether every answer was
   * accepted, the final offset and the requested ranges; these are what AssembleFrom computes.
   */
  method AssembleChunks(fullContent: array<uint8>, chunks: nat, chunkSize: nat, lastChunkSize: nat,
                        responses: seq<Response>)
    returns (accepted: bool, offset: nat, requests: seq<ByteRange>)
    requires |responses| == chunks
    modifies fullContent
    ensures offset <= fullContent.Length
    ensures requests == RangesUpTo(chunks, chunkSize, lastChunkSize, |requests|)
    ensures Download(accepted, fullContent[..offset], |requests|) == AssembleFrom(responses, fullContent.Length, 0, [])
  {
    var totalSize := fullContent.Length;
    offset := 0;
    requests := [];
    ghost var result := AssembleFrom(responses, totalSize, 0, []);
    for i := 0 to chunks
      invariant offset <= totalSize
      invariant AssembleFrom(responses, totalSize, i, fullContent[..offset]) == result
      invariant requests == RangesUpTo(chunks, chunkSize, lastChunkSize, i)
    {
      requests := requests + [ChunkRange(i, chunks, chunkSize, lastChunkSize)];
      var response := responses[i];
      if !ChunkAccepted(response.status) {
        return false, offset, requests;
      }
      var chunk := response.body;
      // A chunk of unexpected size is only logged; at most the free room of the buffer is written.
      var writeLength := Min(|chunk|, totalSize - offset);
      CopyInto(fullContent, offset, chunk[..writeLength]);
      offset := offset + writeLength;
      if offset >= totalSize {
        return true, offset, requests;
      }
    }
    accepted := true;
  }

  /**
   * One step of the download, on values: adding the first w = min(|chunk i|, free room) bytes of
   * chunk i to the bytes received so far either leaves the buffer short, holding all bytes of
   * chunks 0..i, or fills it, holding the first totalSize bytes received.
   */
  lemma Step(responses: seq<Response>, totalSize: nat, i: nat, w: nat)
    requires i < |responses| && |Received(responses, i)| <= totalSize
    requires w == Min(|responses[i].body|, totalSize - |Received(responses, i)|)
    ensures |Received(responses, i)| + w < totalSize ==>
              Received(responses, i) + responses[i].body[..w] == Received(responses, i + 1)
    ensures |Received(responses, i)| + w >= totalSize ==>
              && Min(|Concat(responses)|, totalSize) == totalSize
              && Received(responses, i) + responses[i].body[..w] == Concat(responses)[..totalSize]
  {
    var received := Received(responses, i);
    if |received| + w >= totalSize {
      ReceivedPrefix(responses, i + 1, |responses|);
      assert Received(responses, i + 1)[..totalSize] == received + responses[i].body[..w];
    } else {
      assert responses[i].body[..w] == responses[i].body;
    }
  }

  // ---------------------------------------------------------------------------------------------
  // Upload form

  /** Math.max over the save iterations is -Infinity for an empty list. */
  datatype ExtendedInt = NegInfinity | Finite(n: int)

  /** The cap fetchPostVideo puts on total_iterations. */
  const TotalIterationsCap := 30000

  /** The largest element of a non-empty list. */
  function MaxOf(xs: seq<int>): (m: int)
    requires xs != []
    ensures m in xs
    ensures forall x :: x in xs ==> x <= m
  {
    if |xs| == 1 then xs[0]
    else
      assert forall x :: x in xs ==> x == xs[0] || x in xs[1..];
      Max(xs[0], MaxOf(xs[1..]))
  }

  /** `Math.min(Math.max(...saveIterations), 30000)`. */
  function TotalIterations(saveIterations: seq<int>): (t: ExtendedInt)
    ensures saveIterations == [] <==> t == NegInfinity
    ensures t.Finite? ==> t.n <= TotalIterationsCap
    ensures t.Finite? ==> forall x :: x in saveIterations ==> Min(x, TotalIterationsCap) <= t.n
    ensures t.Finite? ==> t.n == TotalIterationsCap || t.n in saveIterations
    ensures t.Finite? && t.n == TotalIterationsCap ==> exists x :: x in saveIterations && x >= TotalIterationsCap
  {
    if saveIterations == [] then NegInfinity
    else Finite(Min(MaxOf(saveIterations), TotalIterationsCap))
  }

  function DigitChar(d: nat): char
    requires d < 10
  {
    "0123456789"[d]
  }

  predicate IsDigit(c: char) { '0' <= c <= '9' }

  /** The decimal digits of n, as Number.prototype.toString writes them. */
  function NatToString(n: nat): (s: string)
    ensures |s| >= 1
    ensures forall i :: 0 <= i < |s| ==> IsDigit(s[i])
  {
    if n < 10 then [DigitChar(n)] else NatToString(n / 10) + [DigitChar(n % 10)]
  }

  /** Number.prototype.toString for an integer: a minus sign before the digits of a negative one. */
  function IntToString(x: int): string {
    if x < 0 then "-" + NatToString(-x) else NatToString(x)
  }

  /** toString of the extended integer: "-Infinity" for minus infinity. */
  function ExtendedToString(t: ExtendedInt): string {
    match t
    case NegInfinity => "-Infinity"
    case Finite(n) => IntToString(n)
  }

  /** Reads a digit string back (the server's side of the form). */
  function ParseNat(s: string): nat {
    if s == [] then 0
    else 10 * ParseNat(s[..|s| - 1]) + (if IsDigit(s[|s| - 1]) then s[|s| - 1] as int - '0' as int else 0)
  }

  function ParseInt(s: string): int {
    if |s| > 0 && s[0] == '-' then -(ParseNat(s[1..]) as int) else ParseNat(s)
  }

  lemma {:induction false} ParseNatToString(n: nat)
    ensures ParseNat(NatToString(n)) == n
  {
    if n >= 10 {
      var s := NatToString(n / 10) + [DigitChar(n % 10)];
      assert s[..|s| - 1] == NatToString(n / 10);
      ParseNatToString(n / 10);
    }
  }

  /** Every integer written into the form reads back as itself. */
  lemma ParseIntToString(x: int)
    ensures ParseInt(IntToString(x)) == x
  {
    if x < 0 {
      var digits := NatToString(-x);
      var s := "-" + digits;
      assert IntToString(x) == s;
      assert s[0] == '-' && s[1..] == digits;
      ParseNatToString(-x);
      assert ParseInt(s) == -(ParseNat(digits) as int);
    } else {
      var s := NatToString(x);
      assert IntToString(x) == s;
      assert IsDigit(s[0]) && s[0] != '-';
      ParseNatToString(x);
      assert ParseInt(s) == ParseNat(s);
    }
  }

  /** `Array.prototype.join(sep)`. */
  function Join(parts: seq<string>, sep: char): string {
    if parts == [] then ""
    else if |parts| == 1 then parts[0]
    else parts[0] + [sep] + Join(parts[1..], sep)
  }

  /** `String.prototype.split(sep)` for a one-character separator: never an empty list. */
  function Split(s: string, sep: char): (fields: seq<string>)
    ensures |fields| >= 1
  {
    if s == [] then [""]
    else
      var rest := Split(s[1..], sep);
      if s[0] == sep then [""] + rest else [[s[0]] + rest[0]] + rest[1..]
  }

  lemma {:induction false} SplitNoSep(s: string, sep: char)
    requires sep !in s
    ensures Split(s, sep) == [s]
  {
    if s != [] {
      SplitNoSep(s[1..], sep);
      assert [s[0]] + s[1..] == s;
    }
  }

  lemma {:induction false} SplitAfterField(a: string, sep: char, b: string)
    requires sep !in a
    ensures Split(a + [sep] + b, sep) == [a] + Split(b, sep)
  {
    if a == [] {
      assert ([] + [sep] + b)[1..] == b;
    } else {
      assert (a + [sep] + b)[1..] == a[1..] + [sep] + b;
      SplitAfterField(a[1..], sep, b);
      assert [a[0]] + a[1..] == a;
    }
  }

  /** A non-empty list of fields free of the separator is read back exactly from its joined form. */
  lemma {:induction false} SplitJoin(parts: seq<string>, sep: char)
    requires |parts| >= 1
    requires forall i :: 0 <= i < |parts| ==> sep !in parts[i]
    ensures Split(Join(parts, sep), sep) == parts
  {
    if |parts| == 1 {
      SplitNoSep(parts[0], sep);
    } else {
      SplitAfterField(parts[0], sep, Join(parts[1..], sep));
      SplitJoin(parts[1..], sep);
    }
  }

  /** The text fields of the upload form (the video file itself is sent beside them). */
  datatype UploadForm = UploadForm(
    trainingMode: string,
    outputTypes: string,
    saveIterations: string,
    totalIterations: string,
    sceneName: string)

  function IterationStrings(xs: seq<int>): (ss: seq<string>)
    ensures |ss| == |xs|
    ensures forall i :: 0 <= i < |xs| ==> ss[i] == IntToString(xs[i])
  {
    seq(|xs|, i requires 0 <= i < |xs| => IntToString(xs[i]))
  }

  /** Only minus infinity prints as "-Infinity": a finite integer has a digit where that has a letter. */
  lemma InfinityText(t: ExtendedInt)
    ensures ExtendedToString(t) == "-Infinity" <==> t.NegInfinity?
  {
    if t.Finite? && t.n < 0 {
      assert ExtendedToString(t)[1] == NatToString(-t.n)[0];
      assert !IsDigit("-Infinity"[1]);
    } else if t.Finite? {
      assert IsDigit(ExtendedToString(t)[0]);
    }
  }

  /** The form fields fetchPostVideo appends for a configuration. */
  function UploadFormOf(config: TrainingConfig): (form: UploadForm)
    ensures form.trainingMode == config.trainingMode && form.sceneName == config.sceneName
    ensures form.totalIterations == "-Infinity" <==> config.saveIterations == []
  {
    InfinityText(TotalIterations(config.saveIterations));
    UploadForm(
      config.trainingMode,
      Join(config.outputTypes, ','),
      Join(IterationStrings(config.saveIterations), ','),
      ExtendedToString(TotalIterations(config.saveIterations)),
      config.sceneName)
  }

  lemma NoCommaInNumber(x: int)
    ensures ',' !in IntToString(x)
  {
    var s := NatToString(if x < 0 then -x else x);
    assert forall i :: 0 <= i < |s| ==> s[i] != ',';
  }

  /**
   * The server reads the configuration back from the form: the save iterations and (when no
   * output type contains a comma) the output types split out of their fields, and the total
   * iterations is the capped maximum, never above 30000.
   */
  lemma UploadFormRoundTrip(config: TrainingConfig)
    requires config.saveIterations != []
    ensures var form := UploadFormOf(config);
      && |Split(form.saveIterations, ',')| == |config.saveIterations|
      && (forall i :: 0 <= i < |config.saveIterations| ==>
            ParseInt(Split(form.saveIterations, ',')[i]) == config.saveIterations[i])
      && ParseInt(form.totalIterations) == Min(MaxOf(config.saveIterations), TotalIterationsCap)
      && ParseInt(form.totalIterations) <= TotalIterationsCap
    ensures (config.outputTypes != [] &&
             forall i :: 0 <= i < |config.outputTypes| ==> ',' !in config.outputTypes[i]) ==>
              Split(UploadFormOf(config).outputTypes, ',') == config.outputTypes
  {
    var ss := IterationStrings(config.saveIterations);
    forall i | 0 <= i < |ss| ensures ',' !in ss[i] {
      NoCommaInNumber(config.saveIterations[i]);
    }
    SplitJoin(ss, ',');
    forall i | 0 <= i < |config.saveIterations|
      ensures ParseInt(Split(UploadFormOf(config).saveIterations, ',')[i]) == config.saveIterations[i]
    {
      ParseIntToString(config.saveIterations[i]);
    }
    ParseIntToString(Min(MaxOf(config.saveIterations), TotalIterationsCap));
    if config.outputTypes != [] && (forall i :: 0 <= i < |config.outputTypes| ==> ',' !in config.outputTypes[i]) {
      SplitJoin(config.outputTypes, ',');
    }
  }

  /** The only statuses fetchPostVideo accepts. */
  predicate UploadAccepted(status: int) { status == 200 || status == 202 }

  /**
   * The result of fetchPostVideo for an answer with the given status and parsed body: the body
   * for 200 or 202, null for every other status.
   */
  function UploadResult(status: int, body: RequestMetaData): (r: Option<RequestMetaData>)
    ensures r.Some? <==> UploadAccepted(status)
    ensures r.Some? ==> r.value == body
  {
    if UploadAccepted(status) then Some(body) else None
  }

  /** The upload is stricter than `response.ok`: 201 and 204 are ok but yield null. */
  lemma UploadStricterThanOk(status: int, body: RequestMetaData)
    ensures UploadResult(status, body).Some? ==> Ok(status)
    ensures Ok(201) && UploadResult(201, body) == None
    ensures Ok(204) && UploadResult(204, body) == None
  {
  }
}
