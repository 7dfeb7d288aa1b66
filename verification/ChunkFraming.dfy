/** What the decoder accepts: bodies that are a list of framed chunks whose signatures chain from
    the seed - and what becomes of a body that is cut short. */
module ChunkFraming {
  import opened Common
  import opened ChunkHeader
  import opened ChunkedStream

  datatype Chunk = Chunk(header: seq<byte>, data: seq<byte>, signature: Option<string>)

  function Payload(chunks: seq<Chunk>): seq<byte>
  {
    if chunks == [] then [] else chunks[0].data + Payload(chunks[1..])
  }

  function Framed(c: Chunk): seq<byte> { c.header + CRLF + c.data + CRLF }

  /** `body` consists of these chunks: every header announces its data and signature, the signature
      covers the data and the signature before it, only the last chunk is empty, and only its
      closing CRLF may be missing; what follows that CRLF is not looked at. */
  ghost predicate Framing(env: Env, body: seq<byte>, previous: string, chunks: seq<Chunk>)
    decreases |chunks|
  {
    && chunks != []
    && var c := chunks[0];
    && FindCrlf(c.header).None?
    && ParseHeader(c.header, env.context.Some?) == Ok(Header(|c.data|, c.signature))
    && Verifies(env, previous, c.signature, c.data)
    && if |chunks| == 1 then
         c.data == [] && (body == c.header + CRLF || Framed(c) <= body)
       else
         c.data != [] && Framed(c) <= body
         && Framing(env, body[|Framed(c)|..], Chained(env, previous, c.signature), chunks[1..])
  }

  /** Only a CRLF of its own ends a header without one. */
  lemma {:induction false} FindCrlfEnds(header: seq<byte>, rest: seq<byte>)
    requires FindCrlf(header).None?
    ensures FindCrlf(header + CRLF + rest) == Some(|header|)
  {
    var bytes := header + CRLF + rest;
    if header != [] {
      assert bytes[1..] == header[1..] + CRLF + rest;
      FindCrlfEnds(header[1..], rest);
    }
  }

  // ---- One chunk, seen by the reference parser ----

  /** A complete data chunk is delivered and decoding goes on behind it. */
  lemma DecodeChunk(env: Env, previous: string, c: Chunk, rest: seq<byte>)
    requires FindCrlf(c.header).None? && c.data != []
    requires ParseHeader(c.header, env.context.Some?) == Ok(Header(|c.data|, c.signature))
    requires Verifies(env, previous, c.signature, c.data)
    ensures Decode(env, Framed(c) + rest, previous)
            == Longer(|c.header|, Prepend(c.data, Decode(env, rest, Chained(env, previous, c.signature))))
  {
    hide FindCrlf, ParseHeader;
    var body := Framed(c) + rest;
    var tail := c.data + CRLF + rest;
    assert body == c.header + CRLF + tail;
    FindCrlfEnds(c.header, tail);
    assert body[..|c.header|] == c.header && body[|c.header| + 2..] == tail;
    AllData(env, tail, |c.data|, false, previous, c.signature, []);
    assert tail[..|c.data|] == c.data && tail[|c.data|..] == CRLF + rest && [] + c.data == c.data;
    assert (CRLF + rest)[2..] == rest && CRLF <= CRLF + rest;
  }

  /** The final chunk is accepted when nothing follows its header, or its CRLF does. */
  lemma DecodeFinal(env: Env, previous: string, c: Chunk, rest: seq<byte>)
    requires FindCrlf(c.header).None? && c.data == []
    requires ParseHeader(c.header, env.context.Some?) == Ok(Header(0, c.signature))
    ensures Decode(env, c.header + CRLF + rest, previous)
            == Longer(|c.header|, DecodeEnd(env, rest, true, previous, c.signature, []))
  {
    hide FindCrlf, ParseHeader, DecodeEnd;
    var body := c.header + CRLF + rest;
    FindCrlfEnds(c.header, rest);
    assert body[..|c.header|] == c.header && body[|c.header| + 2..] == rest;
    NoData(env, rest, previous, c.signature);
  }

  lemma {:induction false} FramingAccepted(env: Env, body: seq<byte>, previous: string, chunks: seq<Chunk>)
    requires Framing(env, body, previous, chunks)
    ensures Decode(env, body, previous).error == None
    ensures Decode(env, body, previous).output == Payload(chunks)
    decreases |chunks|
  {
    hide Decode, FindCrlf, ParseHeader;
    var c := chunks[0];
    if |chunks| == 1 {
      var rest := if body == c.header + CRLF then [] else body[|c.header| + 2..];
      assert body == c.header + CRLF + rest by {
        if Framed(c) <= body {
          assert body[..|c.header| + 2] == Framed(c)[..|c.header| + 2] == c.header + CRLF;
        }
      }
      DecodeFinal(env, previous, c, rest);
      assert rest == [] || CRLF <= rest by {
        if body != c.header + CRLF {
          assert rest[..2] == body[|c.header| + 2..][..2] == Framed(c)[|c.header| + 2..];
        }
      }
      assert |chunks[1..]| == 0 && Payload(chunks) == [];
    } else {
      var rest := body[|Framed(c)|..];
      assert body == Framed(c) + rest;
      DecodeChunk(env, previous, c, rest);
      FramingAccepted(env, rest, Chained(env, previous, c.signature), chunks[1..]);
    }
  }

  /** The first chunk of a body whose decoding succeeds. */
  lemma AcceptedChunk(env: Env, body: seq<byte>, previous: string) returns (c: Chunk)
    requires Decode(env, body, previous).error == None
    ensures FindCrlf(c.header).None?
    ensures ParseHeader(c.header, env.context.Some?) == Ok(Header(|c.data|, c.signature))
    ensures Verifies(env, previous, c.signature, c.data)
    ensures c.data == [] ==> (body == c.header + CRLF || Framed(c) <= body) && Decode(env, body, previous).output == []
    ensures c.data != [] ==>
              && Framed(c) <= body
              && Decode(env, body[|Framed(c)|..], Chained(env, previous, c.signature)).error == None
              && Decode(env, body, previous).output
                 == c.data + Decode(env, body[|Framed(c)|..], Chained(env, previous, c.signature)).output
  {
    hide FindCrlf, ParseHeader, DecodeData, DecodeEnd, Decode;
    var i, h := AcceptedHeader(env, body, previous);
    var header, rest := body[..i], body[i + 2..];
    DataComplete(env, rest, h.size, h.size == 0, previous, h.signature);
    c := Chunk(header, rest[..h.size], h.signature);
    var tail := rest[h.size..];
    assert [] + rest[..h.size] == c.data;
    AllData(env, rest, h.size, h.size == 0, previous, h.signature, []);
    EndAccepted(env, tail, h.size == 0, previous, h.signature, c.data);
    if CRLF <= tail {
      assert tail == CRLF + tail[2..];
      assert body == Framed(c) + tail[2..];
      assert body[|Framed(c)|..] == tail[2..];
    } else {
      assert body == c.header + CRLF;
    }
  }

  lemma AcceptedHeader(env: Env, body: seq<byte>, previous: string) returns (i: nat, h: Header)
    requires Decode(env, body, previous).error == None
    ensures i + 2 <= |body| && body == body[..i] + CRLF + body[i + 2..]
    ensures FindCrlf(body[..i]).None? && ParseHeader(body[..i], env.context.Some?) == Ok(h)
    ensures SameVerdict(Decode(env, body, previous), DecodeData(env, body[i + 2..], h.size, h.size == 0, previous, h.signature, []))
  {
    hide FindCrlf, ParseHeader, DecodeData;
    i := FindCrlf(body).value;
    assert body[i..][..2] == CRLF;
    FindCrlfCut(body, i);
    h := ParseHeader(body[..i], env.context.Some?).value;
  }

  lemma DataComplete(env: Env, body: seq<byte>, remaining: nat, final: bool, previous: string, signature: Option<string>)
    requires DecodeData(env, body, remaining, final, previous, signature, []).error == None
    ensures remaining <= |body|
  {}

  lemma EndAccepted(env: Env, body: seq<byte>, final: bool, previous: string, signature: Option<string>, data: seq<byte>)
    requires DecodeEnd(env, body, final, previous, signature, data).error == None
    ensures Verifies(env, previous, signature, data)
    ensures CRLF <= body || (final && body == [])
    ensures final ==> DecodeEnd(env, body, final, previous, signature, data).output == []
    ensures !final ==> DecodeEnd(env, body, final, previous, signature, data) == Decode(env, body[2..], Chained(env, previous, signature))
  {}

  lemma {:induction false} AcceptedFraming(env: Env, body: seq<byte>, previous: string) returns (chunks: seq<Chunk>)
    requires Decode(env, body, previous).error == None
    ensures Framing(env, body, previous, chunks)
    ensures Decode(env, body, previous).output == Payload(chunks)
    decreases |body|
  {
    var c := AcceptedChunk(env, body, previous);
    hide Decode, FindCrlf, ParseHeader;
    if c.data == [] {
      chunks := [c];
      assert |chunks[1..]| == 0 && Payload(chunks) == [];
    } else {
      var rest := AcceptedFraming(env, body[|Framed(c)|..], Chained(env, previous, c.signature));
      chunks := [c] + rest;
      assert chunks[1..] == rest;
    }
  }

  /** The accepted bodies are exactly the chunk lists, and the output is their concatenated data. */
  lemma AcceptedIffFraming(env: Env, body: seq<byte>, previous: string, output: seq<byte>)
    ensures Decode(env, body, previous).error == None && Decode(env, body, previous).output == output
            <==> exists chunks :: Framing(env, body, previous, chunks) && Payload(chunks) == output
  {
    hide Decode, Framing;
    if Decode(env, body, previous).error == None {
      var chunks := AcceptedFraming(env, body, previous);
      assert Framing(env, body, previous, chunks);
    }
    if chunks :| Framing(env, body, previous, chunks) && Payload(chunks) == output {
      FramingAccepted(env, body, previous, chunks);
    }
  }

  /** In a signed body every chunk carries the signature computed from its data and from the
      signature before it, the first from the seed. */
  lemma {:induction false} SignaturesChain(env: Env, body: seq<byte>, previous: string, chunks: seq<Chunk>, i: nat)
    requires env.context.Some? && Framing(env, body, previous, chunks) && i < |chunks|
    ensures chunks[i].signature.Some? && (i > 0 ==> chunks[i - 1].signature.Some?)
    ensures chunks[i].signature.value
            == Expected(env, if i == 0 then previous else chunks[i - 1].signature.value, chunks[i].data)
    ensures chunks[i].data == [] <==> i == |chunks| - 1
    decreases |chunks|
  {
    hide FindCrlf, ParseHeader, Framed, Expected;
    SignedHeader(chunks[0].header);
    assert chunks[0].signature.Some?;
    if i > 0 {
      SignaturesChain(env, body[|Framed(chunks[0])|..], chunks[0].signature.value, chunks[1..], i - 1);
    }
  }

  lemma SignedHeader(header: seq<byte>)
    ensures ParseHeader(header, true).Ok? ==> ParseHeader(header, true).value.signature.Some?
  {}

  // ---- Canonical framing, as a client writes it ----

  function SignatureFor(env: Env, previous: string, data: seq<byte>): Option<Digest>
  {
    if env.context.Some? then Some(Expected(env, previous, data)) else None
  }

  function ChunkFor(env: Env, previous: string, data: seq<byte>): Chunk
  {
    var signature := SignatureFor(env, previous, data);
    Chunk(Ascii(HeaderLine(|data|, signature)), data, signature)
  }

  function ChunksFor(env: Env, previous: string, payload: seq<seq<byte>>): (chunks: seq<Chunk>)
    ensures chunks != []
    decreases |payload|
  {
    if payload == [] then [ChunkFor(env, previous, [])]
    else
      var c := ChunkFor(env, previous, payload[0]);
      [c] + ChunksFor(env, Chained(env, previous, c.signature), payload[1..])
  }

  function Frame(chunks: seq<Chunk>): seq<byte>
  {
    if chunks == [] then [] else Framed(chunks[0]) + Frame(chunks[1..])
  }

  /** Payload pieces a client may send: not empty, and no longer than a safe integer says. */
  ghost predicate Sendable(payload: seq<seq<byte>>)
  {
    forall i :: 0 <= i < |payload| ==> 0 < |payload[i]| <= MAX_SAFE_INTEGER
  }

  lemma ChunkForReads(env: Env, previous: string, data: seq<byte>)
    ensures var c := ChunkFor(env, previous, data);
            && FindCrlf(c.header).None?
            && ParseHeader(c.header, env.context.Some?) == Ok(Header(|data|, c.signature))
            && Verifies(env, previous, c.signature, data)
            && (|data| <= MAX_SAFE_INTEGER ==> |c.header| < MAX_HEADER_BYTES)
  {
    hide FindCrlf, ParseHeader, HeaderLine, Ascii;
    var signature := SignatureFor(env, previous, data);
    var header := Ascii(HeaderLine(|data|, signature));
    ReadHeaderLine(|data|, signature);
    HeaderLineNoCr(|data|, signature);
    FindCrlfAfter(header, []);
    FindCrlfCut(header + CRLF + [], |header|);
    assert (header + CRLF + [])[..|header|] == header;
    if |data| <= MAX_SAFE_INTEGER {
      HeaderLineLength(|data|, signature);
    }
  }

  /** Decoding a framed payload gives it back, whatever trails the final CRLF. */
  lemma {:induction false} RoundTrip(env: Env, previous: string, payload: seq<seq<byte>>, trailer: seq<byte>)
    requires Sendable(payload)
    ensures var o := Decode(env, Frame(ChunksFor(env, previous, payload)) + trailer, previous);
            o.error == None && o.output == Flatten(payload) && o.longest < MAX_HEADER_BYTES
    decreases |payload|
  {
    hide Decode, FindCrlf, ParseHeader, ChunkFor;
    var chunks := ChunksFor(env, previous, payload);
    var c, rest := chunks[0], Frame(chunks[1..]);
    if payload == [] {
      ChunkForReads(env, previous, []);
      assert chunks[1..] == [];
      assert c.data == [] by { ChunkForData(env, previous, []); }
      assert Frame(chunks) + trailer == c.header + CRLF + (CRLF + trailer);
      DecodeFinal(env, previous, c, CRLF + trailer);
    } else {
      ChunkForReads(env, previous, payload[0]);
      ChunkForData(env, previous, payload[0]);
      assert chunks[1..] == ChunksFor(env, Chained(env, previous, c.signature), payload[1..]);
      assert Frame(chunks) + trailer == Framed(c) + (rest + trailer);
      DecodeChunk(env, previous, c, rest + trailer);
      RoundTrip(env, Chained(env, previous, c.signature), payload[1..], trailer);
    }
  }

  lemma ChunkForData(env: Env, previous: string, data: seq<byte>)
    ensures ChunkFor(env, previous, data).data == data
  {}

  /** ... in any fragmentation, through the stream. */
  lemma StreamRoundTrip(env: Env, payload: seq<seq<byte>>, trailer: seq<byte>, pieces: seq<seq<byte>>)
    requires Sendable(payload)
    requires Flatten(pieces) == Frame(ChunksFor(env, Seed(env), payload)) + trailer
    ensures Pipe(env, Start(env), pieces).error == None
    ensures Pipe(env, Start(env), pieces).output == Flatten(payload)
  {
    RoundTrip(env, Seed(env), payload, trailer);
    FragmentationIndependent(env, pieces);
  }

  // ---- Bodies cut short ----

  /** A chunk cut off before its end is not accepted: no CRLF of its own ends it. */
  lemma ChunkCut(env: Env, previous: string, c: Chunk, n: nat)
    requires FindCrlf(c.header).None?
    requires ParseHeader(c.header, env.context.Some?) == Ok(Header(|c.data|, c.signature))
    requires Verifies(env, previous, c.signature, c.data)
    requires n < |Framed(c)|
    ensures Decode(env, Framed(c)[..n], previous).error == None <==> c.data == [] && n == |c.header| + 2
  {
    hide FindCrlf, ParseHeader;
    var body, k := Framed(c)[..n], |c.header| + 2;
    FindCrlfEnds(c.header, c.data + CRLF);
    assert Framed(c) == c.header + CRLF + (c.data + CRLF);
    if n < k {
      FindCrlfCut(Framed(c), n);
    } else {
      var rest := (c.data + CRLF)[..n - k];
      assert body == c.header + CRLF + rest;
      FindCrlfEnds(c.header, rest);
      assert body[..|c.header|] == c.header && body[k..] == rest;
      if |rest| >= |c.data| {
        AllData(env, rest, |c.data|, c.data == [], previous, c.signature, []);
        assert rest[..|c.data|] == c.data && [] + c.data == c.data;
        assert |rest[|c.data|..]| < 2;
      }
    }
  }

  /** A framed body cut short anywhere is accepted only if exactly its final CRLF is missing. */
  lemma {:induction false} ProperPrefix(env: Env, previous: string, payload: seq<seq<byte>>, n: nat)
    requires Sendable(payload)
    requires n < |Frame(ChunksFor(env, previous, payload))|
    ensures Decode(env, Frame(ChunksFor(env, previous, payload))[..n], previous).error == None
            <==> n == |Frame(ChunksFor(env, previous, payload))| - 2
    decreases |payload|
  {
    hide Decode, FindCrlf, ParseHeader, ChunkFor;
    var chunks := ChunksFor(env, previous, payload);
    var data := if payload == [] then [] else payload[0];
    var c, rest := chunks[0], Frame(chunks[1..]);
    ChunkForReads(env, previous, data);
    ChunkForData(env, previous, data);
    assert Frame(chunks) == Framed(c) + rest;
    if payload == [] {
      assert chunks[1..] == [] && Frame(chunks)[..n] == Framed(c)[..n];
      ChunkCut(env, previous, c, n);
    } else {
      assert chunks[1..] == ChunksFor(env, Chained(env, previous, c.signature), payload[1..]);
      if n < |Framed(c)| {
        assert Frame(chunks)[..n] == Framed(c)[..n];
        ChunkCut(env, previous, c, n);
        assert rest == Framed(chunks[1]) + Frame(chunks[1..][1..]);
      } else {
        var m := n - |Framed(c)|;
        assert Frame(chunks)[..n] == Framed(c) + rest[..m];
        DecodeChunk(env, previous, c, rest[..m]);
        ProperPrefix(env, Chained(env, previous, c.signature), payload[1..], m);
      }
    }
  }

  // ---- The limit on headers is needed ----

  lemma LongHeader(env: Env, m: Machine, body: seq<byte>, n: nat)
    requires m.state.AtHeader? && m.pending == [] && n == MAX_HEADER_BYTES + 1
    requires FindCrlf(body).Some? && FindCrlf(body).value >= MAX_HEADER_BYTES
    ensures n <= |body| && Feed(env, m, body[..n]) == Crashed(MalformedBody, m.output)
  {
    hide FindCrlf, ParseHeader;
    FindCrlfCut(body, n);
    var held := body[..n];
    assert m.pending + held == held;
    assert |held| == n;
    assert HeaderStep(env, m.(pending := held)) == Failed(MalformedBody);
    assert NextStep(env, m.(pending := held)) == Failed(MalformedBody);
  }

  lemma HeaderOf(c: Chunk, body: seq<byte>)
    requires FindCrlf(c.header).None? && (body == c.header + CRLF || Framed(c) <= body)
    ensures FindCrlf(body) == Some(|c.header|)
    ensures c.header + CRLF <= body
  {
    var rest := body[|c.header| + 2..];
    assert body == c.header + CRLF + rest by {
      if Framed(c) <= body {
        assert body[..|c.header| + 2] == Framed(c)[..|c.header| + 2] == c.header + CRLF;
      }
    }
    FindCrlfEnds(c.header, rest);
  }

  /** A machine at rest behind a complete data chunk. */
  function Passed(env: Env, m: Machine, c: Chunk): Machine
  {
    m.(previousSignature := Chained(env, m.previousSignature, c.signature), chunkSignature := c.signature,
       remaining := 0, isFinalChunk := false, hashed := c.data, output := m.output + c.data)
  }

  lemma PassHeader(env: Env, m: Machine, c: Chunk, tail: seq<byte>)
    requires m.state.AtHeader? && m.pending == c.header + CRLF + tail
    requires FindCrlf(c.header).None? && c.data != []
    requires ParseHeader(c.header, env.context.Some?) == Ok(Header(|c.data|, c.signature))
    ensures Run(env, m) == Run(env, m.(state := InData, pending := tail, remaining := |c.data|, isFinalChunk := false,
                                       chunkSignature := c.signature, hashed := []))
  {
    hide FindCrlf, ParseHeader;
    FindCrlfEnds(c.header, tail);
    assert m.pending[..|c.header|] == c.header && m.pending[|c.header| + 2..] == tail;
  }

  lemma PassData(env: Env, m: Machine, data: seq<byte>, tail: seq<byte>)
    requires m.state.InData? && m.pending == data + tail && data != [] && m.remaining == |data| && m.hashed == []
    ensures Run(env, m) == Run(env, m.(state := AtTerminator, pending := tail, remaining := 0, hashed := data, output := m.output + data))
  {
    assert m.pending[..|data|] == data && m.pending[|data|..] == tail && [] + data == data;
  }

  lemma PassTerminator(env: Env, m: Machine, tail: seq<byte>)
    requires m.state.AtTerminator? && m.pending == CRLF + tail && !m.isFinalChunk
    requires Verifies(env, m.previousSignature, m.chunkSignature, m.hashed)
    ensures Run(env, m) == Run(env, m.(state := AtHeader, pending := tail, previousSignature := Chained(env, m.previousSignature, m.chunkSignature)))
  {
    assert m.pending[..2] == CRLF && m.pending[2..] == tail;
  }

  /** The machine passes a complete chunk in three steps. */
  lemma RunChunk(env: Env, m: Machine, c: Chunk, rest: seq<byte>)
    requires m.state.AtHeader? && m.pending == []
    requires FindCrlf(c.header).None? && c.data != []
    requires ParseHeader(c.header, env.context.Some?) == Ok(Header(|c.data|, c.signature))
    requires Verifies(env, m.previousSignature, c.signature, c.data)
    ensures Feed(env, m, Framed(c) + rest)
            == Feed(env, Passed(env, m, c), rest)
  {
    hide FindCrlf, ParseHeader, Run, Verifies, Chained;
    var body, tail := Framed(c) + rest, CRLF + rest;
    assert m.pending + body == body && body == c.header + CRLF + (c.data + tail);
    PassHeader(env, m.(pending := body), c, c.data + tail);
    var m1 := m.(state := InData, pending := c.data + tail, remaining := |c.data|, isFinalChunk := false, chunkSignature := c.signature, hashed := []);
    PassData(env, m1, c.data, tail);
    PassTerminator(env, m1.(state := AtTerminator, pending := tail, remaining := 0, hashed := c.data, output := m.output + c.data), rest);
    assert [] + rest == rest;
  }

  lemma FlattenTwo(a: seq<byte>, b: seq<byte>)
    ensures Flatten([a, b]) == a + b
  {
    assert [a, b][1..] == [b];
    FlattenSnoc<byte>([a], b);
    FlattenSnoc<byte>([], a);
  }
}
