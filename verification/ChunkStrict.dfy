/** Bodies with over-long headers. The streaming decoder gives up on a header when more than 1024 bytes
    of it are buffered without its CRLF, which depends on how the body is cut; a strict one-shot
    parser that gives up at the first header of 1024 bytes marks the earliest point where that can
    happen. */
module ChunkStrict {
  import opened Common
  import opened ChunkFraming
  import opened ChunkHeader
  import opened ChunkedStream

  /** The reference parser, refusing headers of 1024 bytes and more. */
  function Strict(env: Env, body: seq<byte>, previous: string): Outcome
    decreases |body|, 1
  {
    match FindCrlf(body)
    case None => Reject(MalformedBody)
    case Some(i) =>
      if i >= MAX_HEADER_BYTES then Reject(MalformedBody)
      else match ParseHeader(body[..i], env.context.Some?)
        case Err(e) => Reject(e)
        case Ok(h) => StrictData(env, body[i + 2..], h.size, h.size == 0, previous, h.signature, [])
  }

  function StrictData(env: Env, body: seq<byte>, remaining: nat, final: bool, previous: string, signature: Option<string>, hashed: seq<byte>): Outcome
    decreases |body|, 2
  {
    if |body| < remaining then Outcome(body, Some(MalformedBody), 0)
    else Prepend(body[..remaining], StrictEnd(env, body[remaining..], final, previous, signature, hashed + body[..remaining]))
  }

  function StrictEnd(env: Env, body: seq<byte>, final: bool, previous: string, signature: Option<string>, data: seq<byte>): Outcome
    decreases |body|, 1
  {
    if !(CRLF <= body) && !(final && body == []) then Reject(MalformedBody)
    else if !Verifies(env, previous, signature, data) then Reject(SignatureMismatch)
    else if final then Outcome([], None, 0)
    else Strict(env, body[2..], Chained(env, previous, signature))
  }

  /** What the strict parser makes of the machine's situation when `more` is all that still arrives. */
  function Bound(env: Env, m: Machine, more: seq<byte>): Outcome
  {
    var input := m.pending + more;
    Prepend(m.output,
            match m.state
            case AtHeader => Strict(env, input, m.previousSignature)
            case InData => StrictData(env, input, m.remaining, false, m.previousSignature, m.chunkSignature, m.hashed)
            case AtTerminator => StrictEnd(env, input, m.isFinalChunk, m.previousSignature, m.chunkSignature, m.hashed)
            case Done => Outcome([], None, 0))
  }

  /** A result is the parser's own, or it gives up somewhere between the strict parser and the parser. */
  ghost predicate Between(result: Outcome, strict: Outcome, full: Outcome)
  {
    || SameVerdict(result, full)
    || (result.error == Some(MalformedBody) && strict.error == Some(MalformedBody) && strict.output <= result.output <= full.output)
  }

  /** One machine's situation follows from another's: the same outlook, and the strict parser has not
      given up in between - or it has, and before all that is delivered by now. */
  ghost predicate Follows(env: Env, m: Machine, m': Machine, more: seq<byte>, more': seq<byte>)
  {
    && m.output <= m'.output
    && SameVerdict(Outlook(env, m', more'), Outlook(env, m, more))
    && (SameVerdict(Bound(env, m', more'), Bound(env, m, more))
        || (Bound(env, m, more).error == Some(MalformedBody) && Bound(env, m, more).output <= m'.output))
  }

  lemma FollowsTransitive(env: Env, m: Machine, m': Machine, m'': Machine, more: seq<byte>, more': seq<byte>, more'': seq<byte>)
    requires Follows(env, m, m', more, more') && Follows(env, m', m'', more', more'')
    ensures Follows(env, m, m'', more, more'')
  {
    hide Outlook, Bound;
  }

  lemma FollowsBetween(env: Env, m: Machine, m': Machine, more: seq<byte>, more': seq<byte>, result: Outcome)
    requires Follows(env, m, m', more, more') && Between(result, Bound(env, m', more'), Outlook(env, m', more'))
    ensures Between(result, Bound(env, m, more), Outlook(env, m, more))
  {
    assert m'.output <= Bound(env, m', more').output;
    hide Outlook, Bound;
  }

  // ---- Single steps ----

  lemma NoStrictData(env: Env, body: seq<byte>, previous: string, signature: Option<string>)
    ensures StrictData(env, body, 0, true, previous, signature, []) == StrictEnd(env, body, true, previous, signature, [])
  {
    hide StrictEnd;
    assert body[0..] == body && [] + body[..0] == [];
    var end := StrictEnd(env, body, true, previous, signature, []);
    assert Prepend([], end) == end;
  }

  /** A header found in the buffer is the one the parsers find, whatever follows. */
  lemma HeaderFollows(env: Env, m: Machine, more: seq<byte>)
    requires m.state.AtHeader? && HeaderStep(env, m).Advanced?
    ensures Follows(env, m, HeaderStep(env, m).next, more, more) && Valid(HeaderStep(env, m).next)
  {
    hide FindCrlf, ParseHeader, DecodeData, DecodeEnd, StrictData, StrictEnd;
    var input, i := m.pending + more, FindCrlf(m.pending).value;
    FindCrlfStable(m.pending, more);
    assert input[..i] == m.pending[..i];
    assert input[i + 2..] == m.pending[i + 2..] + more;
    var h := ParseHeader(m.pending[..i], env.context.Some?).value;
    NoData(env, input[i + 2..], m.previousSignature, h.signature);
    NoStrictData(env, input[i + 2..], m.previousSignature, h.signature);
  }

  lemma HeaderFails(env: Env, m: Machine, more: seq<byte>)
    requires m.state.AtHeader? && HeaderStep(env, m).Failed?
    ensures Between(Outcome(m.output, Some(HeaderStep(env, m).error), 0), Bound(env, m, more), Outlook(env, m, more))
  {
    hide FindCrlf, ParseHeader, DecodeData, DecodeEnd, StrictData, StrictEnd;
    var input := m.pending + more;
    if FindCrlf(m.pending).None? {
      if FindCrlf(input).Some? {
        FindCrlfLater(m.pending, more);
      }
    } else {
      FindCrlfStable(m.pending, more);
      assert input[..FindCrlf(m.pending).value] == m.pending[..FindCrlf(m.pending).value];
    }
  }

  lemma StrictInPieces(env: Env, a: seq<byte>, b: seq<byte>, remaining: nat, final: bool, previous: string, signature: Option<string>, hashed: seq<byte>)
    requires |a| <= remaining
    ensures StrictData(env, a + b, remaining, final, previous, signature, hashed)
            == Prepend(a, StrictData(env, b, remaining - |a|, final, previous, signature, hashed + a))
  {
    hide StrictEnd;
    var left := remaining - |a|;
    if left <= |b| {
      assert (a + b)[..remaining] == a + b[..left] && (a + b)[remaining..] == b[left..];
      assert hashed + (a + b[..left]) == hashed + a + b[..left];
    }
  }

  lemma AllStrict(env: Env, body: seq<byte>, final: bool, previous: string, signature: Option<string>, hashed: seq<byte>)
    ensures StrictData(env, body, 0, final, previous, signature, hashed) == StrictEnd(env, body, final, previous, signature, hashed)
  {
    hide StrictEnd;
    assert body[..0] == [] && body[0..] == body && hashed + [] == hashed;
    var end := StrictEnd(env, body, final, previous, signature, hashed);
    assert Prepend([], end) == end;
  }

  lemma StrictDataDone(env: Env, body: seq<byte>, remaining: nat, final: bool, previous: string, signature: Option<string>)
    requires remaining <= |body|
    ensures StrictData(env, body, remaining, final, previous, signature, [])
            == Prepend(body[..remaining], StrictEnd(env, body[remaining..], final, previous, signature, body[..remaining]))
  {
    assert [] + body[..remaining] == body[..remaining];
  }

  lemma DataDone(env: Env, body: seq<byte>, remaining: nat, final: bool, previous: string, signature: Option<string>)
    requires remaining <= |body|
    ensures DecodeData(env, body, remaining, final, previous, signature, [])
            == Prepend(body[..remaining], DecodeEnd(env, body[remaining..], final, previous, signature, body[..remaining]))
  {
    assert [] + body[..remaining] == body[..remaining];
  }

  lemma DataShort(env: Env, body: seq<byte>, remaining: nat, final: bool, previous: string, signature: Option<string>)
    requires remaining > |body|
    ensures StrictData(env, body, remaining, final, previous, signature, []) == DecodeData(env, body, remaining, final, previous, signature, [])
  {}

  /** The ends of a chunk differ only where another chunk follows. */
  lemma EndsDiffer(env: Env, body: seq<byte>, final: bool, previous: string, signature: Option<string>, data: seq<byte>)
    requires !SameVerdict(StrictEnd(env, body, final, previous, signature, data), DecodeEnd(env, body, final, previous, signature, data))
    ensures CRLF <= body && !final && Verifies(env, previous, signature, data)
    ensures StrictEnd(env, body, final, previous, signature, data) == Strict(env, body[2..], Chained(env, previous, signature))
    ensures DecodeEnd(env, body, final, previous, signature, data) == Decode(env, body[2..], Chained(env, previous, signature))
  {}

  lemma DataFollows(env: Env, m: Machine, more: seq<byte>)
    requires m.state.InData? && Valid(m)
    ensures !DataStep(m).Failed? && Valid(DataStep(m).next) && Follows(env, m, DataStep(m).next, more, more)
  {
    hide DecodeData, DecodeEnd, StrictData, StrictEnd;
    DataStepOutlook(env, m, more);
    var take := Min(m.remaining, |m.pending|);
    var data, rest := m.pending[..take], m.pending[take..] + more;
    assert data + rest == m.pending + more;
    StrictInPieces(env, data, rest, m.remaining, false, m.previousSignature, m.chunkSignature, m.hashed);
    if take == m.remaining {
      AllStrict(env, rest, false, m.previousSignature, m.chunkSignature, m.hashed + data);
    }
  }

  lemma TerminatorFollows(env: Env, m: Machine, more: seq<byte>)
    requires m.state.AtTerminator?
    ensures match TerminatorStep(env, m)
            case Stalled(m') => m' == m
            case Failed(e) => SameVerdict(Outcome(m.output, Some(e), 0), Outlook(env, m, more))
            case Advanced(m') => Valid(m') && Follows(env, m, m', more, more)
  {
    TerminatorStepOutlook(env, m, more);
    var input := m.pending + more;
    if |m.pending| >= 2 {
      assert input[..2] == m.pending[..2] && input[2..] == m.pending[2..] + more;
    }
  }

  // ---- Runs ----

  lemma FollowsSelf(env: Env, m: Machine, more: seq<byte>)
    ensures Follows(env, m, m, more, more)
  {}

  lemma StepFollows(env: Env, m: Machine, more: seq<byte>)
    requires Valid(m)
    ensures match NextStep(env, m)
            case Stalled(m') => Valid(m') && Follows(env, m, m', more, more)
            case Failed(e) => Between(Outcome(m.output, Some(e), 0), Bound(env, m, more), Outlook(env, m, more))
            case Advanced(m') => Valid(m') && Follows(env, m, m', more, more)
  {
    FollowsSelf(env, m, more);
    match m.state {
      case AtHeader =>
        match HeaderStep(env, m) {
          case Advanced(_) => HeaderFollows(env, m, more);
          case Failed(_) => HeaderFails(env, m, more);
          case Stalled(_) => StalledHeader(env, m);
        }
      case InData => DataFollows(env, m, more);
      case AtTerminator => TerminatorFollows(env, m, more);
      case Done => DoneFollows(env, m, more);
    }
  }

  lemma StalledHeader(env: Env, m: Machine)
    requires m.state.AtHeader? && HeaderStep(env, m).Stalled?
    ensures HeaderStep(env, m).next == m
  {}

  lemma DoneFollows(env: Env, m: Machine, more: seq<byte>)
    requires m.state.Done?
    ensures Valid(m.(pending := [])) && Follows(env, m, m.(pending := []), more, more)
  {}

  lemma {:induction false} RunFollows(env: Env, m: Machine, more: seq<byte>)
    requires Valid(m)
    ensures match Run(env, m)
            case Halted(m') => Valid(m') && Resting(m') && Follows(env, m, m', more, more)
            case Crashed(e, output) => Between(Outcome(output, Some(e), 0), Bound(env, m, more), Outlook(env, m, more))
    decreases |m.pending|, if m.state.InData? then 1 else 0
  {
    hide Follows, Between, Bound, Outlook;
    StepFollows(env, m, more);
    RunRests(env, m);
    match NextStep(env, m) {
      case Advanced(m') =>
        RunFollows(env, m', more);
        match Run(env, m') {
          case Halted(m'') => FollowsTransitive(env, m, m', m'', more, more, more);
          case Crashed(e, output) => FollowsBetween(env, m, m', more, more, Outcome(output, Some(e), 0));
        }
      case _ =>
    }
  }

  lemma FeedFollows(env: Env, m: Machine, chunk: seq<byte>, more: seq<byte>)
    requires Valid(m)
    ensures match Feed(env, m, chunk)
            case Halted(m') => Valid(m') && Resting(m') && Follows(env, m, m', chunk + more, more)
            case Crashed(e, output) => Between(Outcome(output, Some(e), 0), Bound(env, m, chunk + more), Outlook(env, m, chunk + more))
  {
    var fed := m.(pending := m.pending + chunk);
    assert m.pending + (chunk + more) == fed.pending + more;
    RunFollows(env, fed, more);
    hide Run, Decode, DecodeData, DecodeEnd, Strict, StrictData, StrictEnd;
  }

  lemma {:induction false} PipeBetween(env: Env, m: Machine, pieces: seq<seq<byte>>)
    requires Valid(m) && Resting(m)
    ensures Between(Pipe(env, m, pieces), Bound(env, m, Flatten(pieces)), Outlook(env, m, Flatten(pieces)))
    decreases |pieces|
  {
    hide Follows, Bound, Outlook, Feed;
    if pieces == [] {
      FlushOutlook(env, m);
    } else {
      FeedFollows(env, m, pieces[0], Flatten(pieces[1..]));
      match Feed(env, m, pieces[0]) {
        case Halted(m') =>
          PipeBetween(env, m', pieces[1..]);
          FollowsBetween(env, m, m', Flatten(pieces), Flatten(pieces[1..]), Pipe(env, m, pieces));
        case Crashed(_, _) =>
      }
    }
  }

  /** However a body is cut, the decoder gives the reference parser's output and verdict, or gives up at a
      header with an output between the strict parser's and the reference parser's. */
  lemma StreamBetween(env: Env, pieces: seq<seq<byte>>)
    ensures Between(Pipe(env, Start(env), pieces), Strict(env, Flatten(pieces), Seed(env)), Decode(env, Flatten(pieces), Seed(env)))
  {
    hide Strict, Decode;
    var m, body := Start(env), Flatten(pieces);
    assert m.pending + body == body;
    var o, s := Decode(env, body, Seed(env)), Strict(env, body, Seed(env));
    assert Prepend([], o) == o && Prepend([], s) == s;
    PipeBetween(env, m, pieces);
  }

  // ---- The cut that shows the strict parser's result ----

  /** Where the two parsers differ they have a complete chunk with a short header in common, or the first
      header is too long. */
  lemma DifferAfter(env: Env, body: seq<byte>, previous: string) returns (c: Chunk)
    requires !SameVerdict(Strict(env, body, previous), Decode(env, body, previous))
    requires FindCrlf(body).Some? && FindCrlf(body).value < MAX_HEADER_BYTES
    ensures FindCrlf(c.header).None? && c.data != [] && Framed(c) <= body
    ensures ParseHeader(c.header, env.context.Some?) == Ok(Header(|c.data|, c.signature))
    ensures Verifies(env, previous, c.signature, c.data)
    ensures var rest := body[|Framed(c)|..];
            && SameVerdict(Strict(env, body, previous), Prepend(c.data, Strict(env, rest, Chained(env, previous, c.signature))))
            && SameVerdict(Decode(env, body, previous), Prepend(c.data, Decode(env, rest, Chained(env, previous, c.signature))))
  {
    hide FindCrlf, ParseHeader, Verifies, Chained, Strict, StrictData, StrictEnd, Decode, DecodeData, DecodeEnd, SameVerdict;
    var i, h := DifferHeader(env, body, previous);
    var rest := body[i + 2..];
    if |rest| < h.size {
      DataShort(env, rest, h.size, h.size == 0, previous, h.signature);
      SameSelf(StrictData(env, rest, h.size, h.size == 0, previous, h.signature, []));
    }
    c := Chunk(body[..i], rest[..h.size], h.signature);
    var tail := rest[h.size..];
    StrictDataDone(env, rest, h.size, h.size == 0, previous, h.signature);
    DataDone(env, rest, h.size, h.size == 0, previous, h.signature);
    var strict, full := StrictEnd(env, tail, h.size == 0, previous, h.signature, c.data), DecodeEnd(env, tail, h.size == 0, previous, h.signature, c.data);
    SamePrefix(c.data, strict, full);
    EndsDiffer(env, tail, h.size == 0, previous, h.signature, c.data);
    assert tail == CRLF + tail[2..];
    assert body == Framed(c) + tail[2..];
    assert body[|Framed(c)|..] == tail[2..];
  }

  lemma SameSelf(o: Outcome)
    ensures SameVerdict(o, o)
  {}

  lemma SamePrefix(data: seq<byte>, a: Outcome, b: Outcome)
    ensures SameVerdict(a, b) ==> SameVerdict(Prepend(data, a), Prepend(data, b))
  {}

  lemma DifferHeader(env: Env, body: seq<byte>, previous: string) returns (i: nat, h: Header)
    requires !SameVerdict(Strict(env, body, previous), Decode(env, body, previous))
    requires FindCrlf(body).Some? && FindCrlf(body).value < MAX_HEADER_BYTES
    ensures i + 2 <= |body| && body == body[..i] + CRLF + body[i + 2..] && FindCrlf(body[..i]).None?
    ensures ParseHeader(body[..i], env.context.Some?) == Ok(h)
    ensures var s, d := StrictData(env, body[i + 2..], h.size, h.size == 0, previous, h.signature, []),
                        DecodeData(env, body[i + 2..], h.size, h.size == 0, previous, h.signature, []);
            && !SameVerdict(s, d) && SameVerdict(Strict(env, body, previous), s) && SameVerdict(Decode(env, body, previous), d)
  {
    hide FindCrlf, ParseHeader, StrictData, DecodeData;
    i := FindCrlf(body).value;
    FindCrlfCut(body, i);
    assert body[i..][..2] == CRLF;
    h := ParseHeader(body[..i], env.context.Some?).value;
  }

  lemma {:induction false} StrictCut(env: Env, m: Machine, body: seq<byte>) returns (n: nat)
    requires m.state.AtHeader? && m.pending == []
    requires !SameVerdict(Strict(env, body, m.previousSignature), Decode(env, body, m.previousSignature))
    ensures n <= |body| && Feed(env, m, body[..n]) == Crashed(MalformedBody, m.output + Strict(env, body, m.previousSignature).output)
    ensures Strict(env, body, m.previousSignature).error == Some(MalformedBody)
    decreases |body|
  {
    hide FindCrlf, ParseHeader, Verifies, Chained, Strict, StrictData, StrictEnd, Decode, DecodeData, DecodeEnd, Run, Feed, Passed, Framed, SameVerdict;
    CrlfWhereDifferent(env, body, m.previousSignature);
    if FindCrlf(body).value >= MAX_HEADER_BYTES {
      n := MAX_HEADER_BYTES + 1;
      FirstHeaderCut(env, m, body);
    } else {
      var c := DifferAfter(env, body, m.previousSignature);
      var rest := body[|Framed(c)|..];
      var m' := Passed(env, m, c);
      PassedMachine(env, m, c);
      SamePrepended(c.data, Strict(env, rest, m'.previousSignature), Decode(env, rest, m'.previousSignature),
                    Strict(env, body, m.previousSignature), Decode(env, body, m.previousSignature));
      FramedNotEmpty(c);
      var k := StrictCut(env, m', rest);
      n := |Framed(c)| + k;
      CutBehind(env, m, body, c, k);
    }
  }

  /** A cut behind a complete chunk is a cut of the whole body. */
  lemma CutBehind(env: Env, m: Machine, body: seq<byte>, c: Chunk, k: nat)
    requires m.state.AtHeader? && m.pending == [] && Framed(c) <= body && k <= |body| - |Framed(c)|
    requires FindCrlf(c.header).None? && c.data != []
    requires ParseHeader(c.header, env.context.Some?) == Ok(Header(|c.data|, c.signature))
    requires Verifies(env, m.previousSignature, c.signature, c.data)
    requires var rest, m' := body[|Framed(c)|..], Passed(env, m, c);
             && SameVerdict(Strict(env, body, m.previousSignature), Prepend(c.data, Strict(env, rest, m'.previousSignature)))
             && Feed(env, m', rest[..k]) == Crashed(MalformedBody, m'.output + Strict(env, rest, m'.previousSignature).output)
    ensures Feed(env, m, body[..|Framed(c)| + k]) == Crashed(MalformedBody, m.output + Strict(env, body, m.previousSignature).output)
    ensures Strict(env, body, m.previousSignature).error == Strict(env, body[|Framed(c)|..], Passed(env, m, c).previousSignature).error
  {
    hide *;
    var rest, m' := body[|Framed(c)|..], Passed(env, m, c);
    PassedMachine(env, m, c);
    assert body[..|Framed(c)| + k] == Framed(c) + rest[..k];
    RunChunk(env, m, c, rest[..k]);
    PrependedOutput(c.data, Strict(env, rest, m'.previousSignature), Strict(env, body, m.previousSignature), m.output);
  }

  lemma CrlfWhereDifferent(env: Env, body: seq<byte>, previous: string)
    requires !SameVerdict(Strict(env, body, previous), Decode(env, body, previous))
    ensures FindCrlf(body).Some?
  {}

  lemma FirstHeaderCut(env: Env, m: Machine, body: seq<byte>)
    requires m.state.AtHeader? && m.pending == []
    requires FindCrlf(body).Some? && FindCrlf(body).value >= MAX_HEADER_BYTES
    ensures MAX_HEADER_BYTES + 1 <= |body|
    ensures Strict(env, body, m.previousSignature) == Reject(MalformedBody)
    ensures Feed(env, m, body[..MAX_HEADER_BYTES + 1]) == Crashed(MalformedBody, m.output + [])
  {
    hide FindCrlf, Run;
    LongHeader(env, m, body, MAX_HEADER_BYTES + 1);
    assert m.output + [] == m.output;
  }

  lemma PassedMachine(env: Env, m: Machine, c: Chunk)
    ensures var m' := Passed(env, m, c);
            && m'.state == m.state && m'.pending == m.pending && m'.output == m.output + c.data
            && m'.previousSignature == Chained(env, m.previousSignature, c.signature)
  {}

  lemma FramedNotEmpty(c: Chunk)
    ensures Framed(c) != []
  {}

  lemma PrependedOutput(data: seq<byte>, inner: Outcome, outer: Outcome, before: seq<byte>)
    requires SameVerdict(outer, Prepend(data, inner))
    ensures before + data + inner.output == before + outer.output && outer.error == inner.error
  {
    assert before + data + inner.output == before + (data + inner.output);
  }

  /** Decoding is independent of the fragmentation - every way of cutting the body gives the reference
      parser's output and verdict - exactly when refusing over-long headers outright would make no
      difference. This holds of every body, accepted or not. */
  lemma IndependentIffStrict(env: Env, body: seq<byte>)
    ensures SameVerdict(Strict(env, body, Seed(env)), Decode(env, body, Seed(env)))
            <==> forall pieces: seq<seq<byte>> :: Flatten(pieces) == body ==>
                   SameVerdict(Pipe(env, Start(env), pieces), Decode(env, body, Seed(env)))
  {
    hide Decode, Strict, Pipe;
    if SameVerdict(Strict(env, body, Seed(env)), Decode(env, body, Seed(env))) {
      forall pieces: seq<seq<byte>> | Flatten(pieces) == body
        ensures SameVerdict(Pipe(env, Start(env), pieces), Decode(env, body, Seed(env)))
      {
        StreamBetween(env, pieces);
      }
    } else {
      var n := StrictCut(env, Start(env), body);
      var pieces := [body[..n], body[n..]];
      FlattenTwo(body[..n], body[n..]);
      CrashedPipe(env, pieces, Strict(env, body, Seed(env)).output);
    }
  }

  lemma CrashedPipe(env: Env, pieces: seq<seq<byte>>, output: seq<byte>)
    requires pieces != [] && Feed(env, Start(env), pieces[0]) == Crashed(MalformedBody, [] + output)
    ensures Pipe(env, Start(env), pieces) == Outcome(output, Some(MalformedBody), 0)
  {
    assert [] + output == output;
  }

  // ---- Accepted bodies ----

  /** For an accepted body that comes down to its headers: none may have 1024 bytes or more. */
  lemma {:induction false} StrictFraming(env: Env, body: seq<byte>, previous: string, chunks: seq<Chunk>)
    requires Framing(env, body, previous, chunks)
    ensures SameVerdict(Strict(env, body, previous), Decode(env, body, previous))
            <==> forall i :: 0 <= i < |chunks| ==> |chunks[i].header| < 1024
    decreases |chunks|
  {
    FramingNotEmpty(env, body, previous, chunks);
    hide *;
    var c := chunks[0];
    if |c.header| >= MAX_HEADER_BYTES {
      StrictRefuses(env, body, previous, chunks);
    } else if |chunks| > 1 {
      FramingHeader(env, body, previous, chunks);
      FramingRest(env, body, previous, chunks);
      var rest := body[|Framed(c)|..];
      StrictChunk(env, body, previous, c);
      StrictFraming(env, rest, Chained(env, previous, c.signature), chunks[1..]);
      SamePrepended(c.data, Strict(env, rest, Chained(env, previous, c.signature)), Decode(env, rest, Chained(env, previous, c.signature)),
                    Strict(env, body, previous), Decode(env, body, previous));
      assert forall i :: 0 <= i < |chunks[1..]| ==> chunks[1..][i] == chunks[i + 1];
      assert forall i :: 0 < i < |chunks| ==> chunks[i] == chunks[1..][i - 1];
    } else {
      StrictLast(env, body, previous, chunks);
    }
  }

  lemma SamePrepended(data: seq<byte>, a: Outcome, b: Outcome, a': Outcome, b': Outcome)
    requires SameVerdict(a', Prepend(data, a)) && SameVerdict(b', Prepend(data, b))
    ensures SameVerdict(a', b') <==> SameVerdict(a, b)
  {
    if a'.output == b'.output {
      assert a.output == a'.output[|data|..] == b'.output[|data|..] == b.output;
    }
  }

  lemma StrictRefuses(env: Env, body: seq<byte>, previous: string, chunks: seq<Chunk>)
    requires Framing(env, body, previous, chunks) && |chunks[0].header| >= MAX_HEADER_BYTES
    ensures !SameVerdict(Strict(env, body, previous), Decode(env, body, previous))
  {
    hide FindCrlf, ParseHeader, Verifies, Framing, Decode;
    FramingHeader(env, body, previous, chunks);
    FramingAccepted(env, body, previous, chunks);
  }

  lemma FramingNotEmpty(env: Env, body: seq<byte>, previous: string, chunks: seq<Chunk>)
    requires Framing(env, body, previous, chunks)
    ensures chunks != []
  {}

  lemma FramingHeader(env: Env, body: seq<byte>, previous: string, chunks: seq<Chunk>)
    requires Framing(env, body, previous, chunks)
    ensures FindCrlf(body) == Some(|chunks[0].header|)
  {
    hide FindCrlf, ParseHeader, Verifies;
    HeaderOf(chunks[0], body);
  }

  lemma FramingRest(env: Env, body: seq<byte>, previous: string, chunks: seq<Chunk>)
    requires Framing(env, body, previous, chunks) && |chunks| > 1
    ensures Framed(chunks[0]) <= body && chunks[0].data != [] && FindCrlf(chunks[0].header).None?
    ensures ParseHeader(chunks[0].header, env.context.Some?) == Ok(Header(|chunks[0].data|, chunks[0].signature))
    ensures Verifies(env, previous, chunks[0].signature, chunks[0].data)
    ensures Framing(env, body[|Framed(chunks[0])|..], Chained(env, previous, chunks[0].signature), chunks[1..])
  {}

  lemma StrictChunk(env: Env, body: seq<byte>, previous: string, c: Chunk)
    requires FindCrlf(body) == Some(|c.header|) && |c.header| < MAX_HEADER_BYTES && Framed(c) <= body && c.data != []
    requires FindCrlf(c.header).None? && ParseHeader(c.header, env.context.Some?) == Ok(Header(|c.data|, c.signature))
    requires Verifies(env, previous, c.signature, c.data)
    ensures var rest := body[|Framed(c)|..];
            && SameVerdict(Strict(env, body, previous), Prepend(c.data, Strict(env, rest, Chained(env, previous, c.signature))))
            && SameVerdict(Decode(env, body, previous), Prepend(c.data, Decode(env, rest, Chained(env, previous, c.signature))))
  {
    hide FindCrlf, ParseHeader, Verifies, Chained, Decode, StrictData;
    var rest := body[|Framed(c)|..];
    assert body == Framed(c) + rest;
    DecodeChunk(env, previous, c, rest);
    var after := body[|c.header| + 2..];
    assert body[..|c.header|] == c.header && after == c.data + CRLF + rest;
    assert after[..|c.data|] == c.data && after[|c.data|..] == CRLF + rest;
    StrictDataDone(env, after, |c.data|, false, previous, c.signature);
    assert (CRLF + rest)[2..] == rest && CRLF <= CRLF + rest;
  }

  lemma StrictLast(env: Env, body: seq<byte>, previous: string, chunks: seq<Chunk>)
    requires Framing(env, body, previous, chunks) && |chunks| == 1 && |chunks[0].header| < MAX_HEADER_BYTES
    ensures SameVerdict(Strict(env, body, previous), Decode(env, body, previous))
  {
    hide FindCrlf, ParseHeader, Verifies, Chained;
    var c := chunks[0];
    HeaderOf(c, body);
    assert body[..|c.header|] == c.header;
    NoStrictData(env, body[|c.header| + 2..], previous, c.signature);
    NoData(env, body[|c.header| + 2..], previous, c.signature);
  }

  /** For an accepted body the bound on headers is exact: decoding is independent of the fragmentation if
      and only if none of its chunks' headers has 1024 bytes or more. */
  lemma IndependentIffShortHeaders(env: Env, body: seq<byte>, chunks: seq<Chunk>)
    requires Framing(env, body, Seed(env), chunks)
    ensures (forall i :: 0 <= i < |chunks| ==> |chunks[i].header| < 1024)
            <==> forall pieces: seq<seq<byte>> :: Flatten(pieces) == body ==>
                   SameVerdict(Pipe(env, Start(env), pieces), Decode(env, body, Seed(env)))
  {
    hide *;
    IndependentIffStrict(env, body);
    StrictFraming(env, body, Seed(env), chunks);
  }
}
