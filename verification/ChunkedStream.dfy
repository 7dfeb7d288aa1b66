/** `S3ChunkedStream`: the push-driven decoder of `aws-chunked` bodies, proved to behave like a
    one-shot parser of the whole body under every fragmentation. */
module ChunkedStream {
  import opened Common
  import opened ChunkHeader

  const MAX_HEADER_BYTES := 1024

  // ---- Chunk signatures ----

  /** SHA-256 and HMAC stay uninterpreted; both are hex encoded by their callers. */
  datatype Crypto = Crypto(sha256: seq<byte> -> Digest, hmac: (seq<byte>, string) -> Digest)

  datatype SigningContext = SigningContext(signingKey: seq<byte>, seedSignature: string, amzDate: string, credentialScope: string)

  /** A decoder's surroundings; the context is absent for unsigned bodies. */
  datatype Env = Env(crypto: Crypto, context: Option<SigningContext>)

  function ChunkText(crypto: Crypto, context: SigningContext, previous: string, chunkHash: string): string
  {
    Join(["AWS4-HMAC-SHA256-PAYLOAD", context.amzDate, context.credentialScope, previous, crypto.sha256([]), chunkHash], "\n")
  }

  function ComputeChunkSignature(crypto: Crypto, context: SigningContext, previous: string, chunkHash: string): Digest
  {
    crypto.hmac(context.signingKey, ChunkText(crypto, context, previous, chunkHash))
  }

  function Expected(env: Env, previous: string, data: seq<byte>): Digest
    requires env.context.Some?
  {
    ComputeChunkSignature(env.crypto, env.context.value, previous, env.crypto.sha256(data))
  }

  predicate Verifies(env: Env, previous: string, signature: Option<string>, data: seq<byte>)
  {
    env.context.Some? && signature.Some? ==> Expected(env, previous, data) == signature.value
  }

  function Chained(env: Env, previous: string, signature: Option<string>): string
  {
    if env.context.Some? && signature.Some? then signature.value else previous
  }

  function Seed(env: Env): string
  {
    match env.context case Some(c) => c.seedSignature case None => ""
  }

  // ---- Reference: a one-shot parser over the complete body ----

  /** What decoding comes to: the payload bytes delivered, the error if any, and the length of the
      longest CRLF-terminated header met on the way. */
  datatype Outcome = Outcome(output: seq<byte>, error: Option<Error>, longest: nat)

  function Prepend(data: seq<byte>, o: Outcome): Outcome { o.(output := data + o.output) }

  function Longer(length: nat, o: Outcome): Outcome { o.(longest := Max(length, o.longest)) }

  function Reject(error: Error): Outcome { Outcome([], Some(error), 0) }

  /** At the start of a chunk header. */
  function Decode(env: Env, body: seq<byte>, previous: string): Outcome
    decreases |body|, 1
  {
    match FindCrlf(body)
    case None => Reject(MalformedBody)
    case Some(i) =>
      Longer(i,
             match ParseHeader(body[..i], env.context.Some?)
             case Err(e) => Reject(e)
             case Ok(h) => DecodeData(env, body[i + 2..], h.size, h.size == 0, previous, h.signature, []))
  }

  /** Inside a chunk's data, `hashed` of it already seen; the final chunk has none. */
  function DecodeData(env: Env, body: seq<byte>, remaining: nat, final: bool, previous: string, signature: Option<string>, hashed: seq<byte>): Outcome
    decreases |body|, 2
  {
    if |body| < remaining then Outcome(body, Some(MalformedBody), 0)
    else Prepend(body[..remaining], DecodeEnd(env, body[remaining..], final, previous, signature, hashed + body[..remaining]))
  }

  /** At the CRLF closing a chunk; the final chunk's may be missing, and what follows it is dropped. */
  function DecodeEnd(env: Env, body: seq<byte>, final: bool, previous: string, signature: Option<string>, data: seq<byte>): Outcome
    decreases |body|, 1
  {
    if !(CRLF <= body) && !(final && body == []) then Reject(MalformedBody)
    else if !Verifies(env, previous, signature, data) then Reject(SignatureMismatch)
    else if final then Outcome([], None, 0)
    else Decode(env, body[2..], Chained(env, previous, signature))
  }

  // ---- The decoder's fields and its steps, as values ----

  datatype State = AtHeader | InData | AtTerminator | Done

  datatype Machine = Machine(state: State, pending: seq<byte>, remaining: nat, isFinalChunk: bool,
                             previousSignature: string, chunkSignature: Option<string>, hashed: seq<byte>, output: seq<byte>)

  datatype Step = Advanced(next: Machine) | Stalled(next: Machine) | Failed(error: Error)

  ghost predicate Valid(m: Machine)
  {
    && (m.state.InData? ==> m.remaining > 0 && !m.isFinalChunk)
  }

  function HeaderStep(env: Env, m: Machine): Step
  {
    match FindCrlf(m.pending)
    case None => if |m.pending| > MAX_HEADER_BYTES then Failed(MalformedBody) else Stalled(m)
    case Some(i) =>
      match ParseHeader(m.pending[..i], env.context.Some?)
      case Err(e) => Failed(e)
      case Ok(h) => Advanced(m.(state := if h.size == 0 then AtTerminator else InData, pending := m.pending[i + 2..],
                                remaining := h.size, isFinalChunk := h.size == 0, chunkSignature := h.signature, hashed := []))
  }

  function DataStep(m: Machine): Step
  {
    if m.pending == [] then Stalled(m)
    else
      var take := Min(m.remaining, |m.pending|);
      var data := m.pending[..take];
      var m' := m.(pending := m.pending[take..], remaining := m.remaining - take,
                   hashed := m.hashed + data, output := m.output + data);
      if m'.remaining > 0 then Stalled(m') else Advanced(m'.(state := AtTerminator))
  }

  function TerminatorStep(env: Env, m: Machine): Step
  {
    if |m.pending| < 2 then Stalled(m)
    else if m.pending[..2] != CRLF then Failed(MalformedBody)
    else if !Verifies(env, m.previousSignature, m.chunkSignature, m.hashed) then Failed(SignatureMismatch)
    else Advanced(m.(state := if m.isFinalChunk then Done else AtHeader, pending := m.pending[2..],
                     previousSignature := Chained(env, m.previousSignature, m.chunkSignature)))
  }

  function NextStep(env: Env, m: Machine): Step
  {
    match m.state
    case AtHeader => HeaderStep(env, m)
    case InData => DataStep(m)
    case AtTerminator => TerminatorStep(env, m)
    case Done => Stalled(m.(pending := []))
  }

  datatype Halt = Halted(next: Machine) | Crashed(error: Error, output: seq<byte>)

  /** `consume`: steps until one of them needs more input. */
  function Run(env: Env, m: Machine): Halt
    decreases |m.pending|, if m.state.InData? then 1 else 0
  {
    match NextStep(env, m)
    case Stalled(m') => Halted(m')
    case Failed(e) => Crashed(e, m.output)
    case Advanced(m') => Run(env, m')
  }

  function Feed(env: Env, m: Machine, chunk: seq<byte>): Halt
  {
    Run(env, m.(pending := m.pending + chunk))
  }

  function FlushError(env: Env, m: Machine): Option<Error>
  {
    if m.state.AtTerminator? && m.isFinalChunk && m.pending == [] then
      if Verifies(env, m.previousSignature, m.chunkSignature, m.hashed) then None else Some(SignatureMismatch)
    else if m.state.Done? then None
    else Some(MalformedBody)
  }

  function Start(env: Env): Machine
  {
    Machine(AtHeader, [], 0, false, Seed(env), None, [], [])
  }

  // ---- Where the machine stands in the reference ----

  /** What the reference makes of the machine's situation when `more` is all that still arrives. */
  function Outlook(env: Env, m: Machine, more: seq<byte>): Outcome
  {
    var input := m.pending + more;
    Prepend(m.output,
            match m.state
            case AtHeader => Decode(env, input, m.previousSignature)
            case InData => DecodeData(env, input, m.remaining, false, m.previousSignature, m.chunkSignature, m.hashed)
            case AtTerminator => DecodeEnd(env, input, m.isFinalChunk, m.previousSignature, m.chunkSignature, m.hashed)
            case Done => Outcome([], None, 0))
  }

  ghost predicate SameVerdict(a: Outcome, b: Outcome) { a.output == b.output && a.error == b.error }

  /** A header step keeps the outlook: the CRLF it found stays where it is whatever follows, and
      only a header no longer than 1023 bytes is certain not to be cut off while it is read. */
  lemma HeaderStepOutlook(env: Env, m: Machine, more: seq<byte>)
    requires m.state.AtHeader? && Outlook(env, m, more).longest < MAX_HEADER_BYTES
    ensures match HeaderStep(env, m)
            case Stalled(m') => m' == m
            case Failed(e) => SameVerdict(Outlook(env, m, more), Outcome(m.output, Some(e), 0))
            case Advanced(m') =>
              && Valid(m')
              && SameVerdict(Outlook(env, m', more), Outlook(env, m, more))
              && Outlook(env, m', more).longest <= Outlook(env, m, more).longest
  {
    hide FindCrlf, ParseHeader, DecodeData, DecodeEnd;
    var input := m.pending + more;
    match FindCrlf(m.pending) {
      case None =>
        if |m.pending| > MAX_HEADER_BYTES && FindCrlf(input).Some? {
          FindCrlfLater(m.pending, more);
        }
      case Some(i) =>
        FindCrlfStable(m.pending, more);
        assert input[..i] == m.pending[..i];
        assert input[i + 2..] == m.pending[i + 2..] + more;
        match ParseHeader(m.pending[..i], env.context.Some?) {
          case Err(_) =>
          case Ok(h) => NoData(env, input[i + 2..], m.previousSignature, h.signature);
        }
    }
  }

  lemma NoData(env: Env, body: seq<byte>, previous: string, signature: Option<string>)
    ensures DecodeData(env, body, 0, true, previous, signature, []) == DecodeEnd(env, body, true, previous, signature, [])
  {
    hide DecodeEnd;
    assert body[0..] == body && [] + body[..0] == [];
    var end := DecodeEnd(env, body, true, previous, signature, []);
    assert Prepend([], end) == end;
  }

  /** Data may be taken in two pieces. */
  lemma DataInPieces(env: Env, a: seq<byte>, b: seq<byte>, remaining: nat, final: bool, previous: string, signature: Option<string>, hashed: seq<byte>)
    requires |a| <= remaining
    ensures DecodeData(env, a + b, remaining, final, previous, signature, hashed)
            == Prepend(a, DecodeData(env, b, remaining - |a|, final, previous, signature, hashed + a))
  {
    hide DecodeEnd;
    var left := remaining - |a|;
    if left <= |b| {
      assert (a + b)[..remaining] == a + b[..left] && (a + b)[remaining..] == b[left..];
      assert hashed + (a + b[..left]) == hashed + a + b[..left];
    }
  }

  lemma AllData(env: Env, body: seq<byte>, remaining: nat, final: bool, previous: string, signature: Option<string>, hashed: seq<byte>)
    requires remaining <= |body|
    ensures DecodeData(env, body, remaining, final, previous, signature, hashed)
            == Prepend(body[..remaining], DecodeEnd(env, body[remaining..], final, previous, signature, hashed + body[..remaining]))
  {}

  lemma DataStepOutlook(env: Env, m: Machine, more: seq<byte>)
    requires m.state.InData? && Valid(m)
    ensures !DataStep(m).Failed?
    ensures Valid(DataStep(m).next)
    ensures SameVerdict(Outlook(env, DataStep(m).next, more), Outlook(env, m, more))
    ensures Outlook(env, DataStep(m).next, more).longest == Outlook(env, m, more).longest
  {
    hide DecodeData, DecodeEnd;
    var take := Min(m.remaining, |m.pending|);
    var data, rest := m.pending[..take], m.pending[take..] + more;
    assert data + rest == m.pending + more;
    DataInPieces(env, data, rest, m.remaining, false, m.previousSignature, m.chunkSignature, m.hashed);
    if take == m.remaining {
      AllData(env, rest, 0, false, m.previousSignature, m.chunkSignature, m.hashed + data);
      assert rest[..0] == [] && rest[0..] == rest;
      assert m.hashed + data + [] == m.hashed + data;
    }
  }

  lemma TerminatorStepOutlook(env: Env, m: Machine, more: seq<byte>)
    requires m.state.AtTerminator?
    ensures match TerminatorStep(env, m)
            case Stalled(m') => m' == m
            case Failed(e) => SameVerdict(Outlook(env, m, more), Outcome(m.output, Some(e), 0))
            case Advanced(m') => Valid(m') && Outlook(env, m', more) == Outlook(env, m, more)
  {
    var input := m.pending + more;
    if |m.pending| >= 2 {
      assert input[..2] == m.pending[..2] && input[2..] == m.pending[2..] + more;
    }
  }

  lemma DoneOutlook(env: Env, m: Machine, more: seq<byte>)
    requires m.state.Done?
    ensures Outlook(env, m.(pending := []), more) == Outlook(env, m, more)
  {}

  /** A machine at rest waits for input it needs, and holds no more than a header's worth. */
  ghost predicate Resting(m: Machine)
  {
    match m.state
    case AtHeader => FindCrlf(m.pending).None? && |m.pending| <= MAX_HEADER_BYTES
    case InData => m.pending == []
    case AtTerminator => |m.pending| < 2
    case Done => m.pending == []
  }

  /** Running to rest keeps the outlook, and crashing agrees with it. */
  lemma {:induction false} RunOutlook(env: Env, m: Machine, more: seq<byte>)
    requires Valid(m) && Outlook(env, m, more).longest < MAX_HEADER_BYTES
    ensures match Run(env, m)
            case Halted(m') =>
              && Valid(m') && Resting(m')
              && SameVerdict(Outlook(env, m', more), Outlook(env, m, more))
              && Outlook(env, m', more).longest < MAX_HEADER_BYTES
            case Crashed(e, output) => SameVerdict(Outlook(env, m, more), Outcome(output, Some(e), 0))
    decreases |m.pending|, if m.state.InData? then 1 else 0
  {
    hide Decode, DecodeData, DecodeEnd, ParseHeader, Outlook;
    match m.state {
      case AtHeader => HeaderStepOutlook(env, m, more);
      case InData => DataStepOutlook(env, m, more);
      case AtTerminator => TerminatorStepOutlook(env, m, more);
      case Done => DoneOutlook(env, m, more);
    }
    match NextStep(env, m) {
      case Advanced(m') => RunOutlook(env, m', more);
      case _ =>
    }
  }

  lemma FeedOutlook(env: Env, m: Machine, chunk: seq<byte>, more: seq<byte>)
    requires Valid(m) && Outlook(env, m, chunk + more).longest < MAX_HEADER_BYTES
    ensures match Feed(env, m, chunk)
            case Halted(m') =>
              && Valid(m') && Resting(m')
              && SameVerdict(Outlook(env, m', more), Outlook(env, m, chunk + more))
              && Outlook(env, m', more).longest < MAX_HEADER_BYTES
            case Crashed(e, output) => SameVerdict(Outlook(env, m, chunk + more), Outcome(output, Some(e), 0))
  {
    assert m.pending + (chunk + more) == m.pending + chunk + more;
    RunOutlook(env, m.(pending := m.pending + chunk), more);
  }

  /** Ending the input at rest gives the verdict the outlook predicted. */
  lemma FlushOutlook(env: Env, m: Machine)
    requires Valid(m) && Resting(m)
    ensures SameVerdict(Outlook(env, m, []), Outcome(m.output, FlushError(env, m), 0))
  {
    assert m.pending + [] == m.pending;
  }

  // ---- Whole runs ----

  /** One `_transform` per piece, then `_flush`; an error ends the stream. */
  function Pipe(env: Env, m: Machine, pieces: seq<seq<byte>>): Outcome
    decreases |pieces|
  {
    if pieces == [] then Outcome(m.output, FlushError(env, m), 0)
    else match Feed(env, m, pieces[0])
      case Crashed(e, output) => Outcome(output, Some(e), 0)
      case Halted(m') => Pipe(env, m', pieces[1..])
  }

  lemma {:induction false} PipeOutlook(env: Env, m: Machine, pieces: seq<seq<byte>>)
    requires Valid(m) && Resting(m) && Outlook(env, m, Flatten(pieces)).longest < MAX_HEADER_BYTES
    ensures SameVerdict(Pipe(env, m, pieces), Outlook(env, m, Flatten(pieces)))
    decreases |pieces|
  {
    if pieces == [] {
      FlushOutlook(env, m);
    } else {
      FeedOutlook(env, m, pieces[0], Flatten(pieces[1..]));
      match Feed(env, m, pieces[0]) {
        case Halted(m') => PipeOutlook(env, m', pieces[1..]);
        case Crashed(_, _) =>
      }
    }
  }

  /** Fragmentation independence: while every CRLF-terminated header of the body has at most 1023
      bytes, any way of cutting it gives the output and the verdict of the one-shot parser. */
  lemma FragmentationIndependent(env: Env, pieces: seq<seq<byte>>)
    requires Decode(env, Flatten(pieces), Seed(env)).longest < 1024
    ensures SameVerdict(Pipe(env, Start(env), pieces), Decode(env, Flatten(pieces), Seed(env)))
  {
    var m, body := Start(env), Flatten(pieces);
    assert m.pending + body == body;
    var o := Decode(env, body, Seed(env));
    assert Prepend([], o) == o;
    PipeOutlook(env, m, pieces);
  }

  // ---- The stream object ----

  /** Whatever the input, a halted run rests: at most 1024 bytes stay buffered. */
  lemma {:induction false} RunRests(env: Env, m: Machine)
    requires Valid(m)
    ensures Run(env, m).Halted? ==> Valid(Run(env, m).next) && Resting(Run(env, m).next) && |Run(env, m).next.pending| <= 1024
    decreases |m.pending|, if m.state.InData? then 1 else 0
  {
    match NextStep(env, m) {
      case Advanced(m') => RunRests(env, m');
      case _ =>
    }
  }

  predicate Shorter(m': Machine, m: Machine)
  {
    |m'.pending| < |m.pending| || (|m'.pending| == |m.pending| && m.state.InData? && !m'.state.InData?)
  }

  /** Running is stepping once and running on; a step that advances shortens what is pending or leaves
      the data of a chunk. */
  lemma RunStep(env: Env, m: Machine)
    requires Valid(m)
    ensures var step := NextStep(env, m);
            && (step.Stalled? ==> Run(env, m) == Halted(step.next))
            && (step.Failed? ==> Run(env, m) == Crashed(step.error, m.output))
            && (step.Advanced? ==> Run(env, m) == Run(env, step.next) && Valid(step.next) && Shorter(step.next, m))
  {
    hide FindCrlf, ParseHeader, Verifies;
  }

  class S3ChunkedStream {
    const env: Env
    var state: State
    var pending: seq<byte>
    var remaining: nat
    var isFinalChunk: bool
    var previousSignature: string
    var chunkSignature: Option<string>
    /** What the running chunk hash has seen. */
    var chunkHash: seq<byte>
    /** What was pushed downstream. */
    var pushed: seq<byte>

    function View(): Machine
      reads this
    {
      Machine(state, pending, remaining, isFinalChunk, previousSignature, chunkSignature, chunkHash, pushed)
    }

    constructor (env: Env)
      ensures this.env == env && View() == Start(env)
    {
      this.env := env;
      state, pending, remaining, isFinalChunk := AtHeader, [], 0, false;
      previousSignature, chunkSignature, chunkHash, pushed := Seed(env), None, [], [];
    }

    method Transform(chunk: seq<byte>) returns (error: Option<Error>)
      requires Valid(View())
      modifies this
      ensures match Feed(env, old(View()), chunk)
              case Halted(m) => error == None && View() == m && Valid(m) && |pending| <= MAX_HEADER_BYTES
              case Crashed(e, output) => error == Some(e) && pushed == output
    {
      pending := if |pending| == 0 then chunk else pending + chunk;
      assert old(pending) + chunk == pending;
      error := Consume();
    }

    method Flush() returns (error: Option<Error>)
      modifies this
      ensures error == FlushError(env, old(View())) && pushed == old(pushed)
    {
      if state == AtTerminator && isFinalChunk && |pending| == 0 {
        error := VerifyChunk();
        if error.Some? {
          return;
        }
        state := Done;
      }
      error := if state != Done then Some(MalformedBody) else None;
    }

    method Consume() returns (error: Option<Error>)
      requires Valid(View())
      modifies this
      ensures match Run(env, old(View()))
              case Halted(m) => error == None && View() == m && Valid(m) && |pending| <= MAX_HEADER_BYTES
              case Crashed(e, output) => error == Some(e) && pushed == output
    {
      RunRests(env, View());
      hide FindCrlf, ParseHeader, Verifies, Chained, HeaderStep, DataStep, TerminatorStep, Run, Resting;
      while true
        invariant Valid(View())
        invariant Run(env, View()) == Run(env, old(View()))
        decreases |pending|, state == InData
      {
        if state == Done {
          RunStep(env, View());
          pending := [];
          return None;
        }
        RunStep(env, View());
        var advanced: Result<bool, Error>;
        if state == AtHeader {
          advanced := ConsumeHeader();
        } else if state == InData {
          advanced := ConsumeData();
        } else {
          advanced := ConsumeTerminator();
        }
        if advanced.Err? {
          return Some(advanced.error);
        }
        if !advanced.value {
          return None;
        }
      }
    }

    ghost predicate Took(step: Step, before: Machine, advanced: Result<bool, Error>)
      reads this
    {
      match step
      case Advanced(m) => advanced == Ok(true) && View() == m
      case Stalled(m) => advanced == Ok(false) && View() == m
      case Failed(e) => advanced == Err(e) && pushed == before.output
    }

    method ConsumeHeader() returns (advanced: Result<bool, Error>)
      requires state == AtHeader
      modifies this
      ensures Took(HeaderStep(env, old(View())), old(View()), advanced)
    {
      var index := FindCrlf(pending);
      if index.None? {
        return if |pending| > MAX_HEADER_BYTES then Err(MalformedBody) else Ok(false);
      }
      var header := pending[..index.value];
      pending := pending[index.value + 2..];
      var parsed := ParseHeader(header, env.context.Some?);
      if parsed.Err? {
        return Err(parsed.error);
      }
      chunkSignature := parsed.value.signature;
      remaining := parsed.value.size;
      isFinalChunk := remaining == 0;
      chunkHash := [];
      state := if remaining == 0 then AtTerminator else InData;
      return Ok(true);
    }

    method ConsumeData() returns (advanced: Result<bool, Error>)
      requires state == InData
      modifies this
      ensures Took(DataStep(old(View())), old(View()), advanced)
    {
      if |pending| == 0 {
        return Ok(false);
      }
      var take := Min(remaining, |pending|);
      var data := pending[..take];
      pending := pending[take..];
      remaining := remaining - take;
      chunkHash := chunkHash + data;
      pushed := pushed + data;
      if remaining > 0 {
        return Ok(false);
      }
      state := AtTerminator;
      return Ok(true);
    }

    method ConsumeTerminator() returns (advanced: Result<bool, Error>)
      requires state == AtTerminator
      modifies this
      ensures Took(TerminatorStep(env, old(View())), old(View()), advanced)
    {
      if |pending| < |CRLF| {
        return Ok(false);
      }
      if pending[..|CRLF|] != CRLF {
        return Err(MalformedBody);
      }
      pending := pending[|CRLF|..];
      var error := VerifyChunk();
      if error.Some? {
        return Err(error.value);
      }
      state := if isFinalChunk then Done else AtHeader;
      return Ok(true);
    }

    method VerifyChunk() returns (error: Option<Error>)
      modifies this`previousSignature
      ensures error == if Verifies(env, old(previousSignature), chunkSignature, chunkHash) then None else Some(SignatureMismatch)
      ensures previousSignature == if error == None then Chained(env, old(previousSignature), chunkSignature) else old(previousSignature)
    {
      if env.context.None? || chunkSignature.None? {
        return None;
      }
      var expected := ComputeChunkSignature(env.crypto, env.context.value, previousSignature, env.crypto.sha256(chunkHash));
      if expected != chunkSignature.value {
        return Some(SignatureMismatch);
      }
      previousSignature := chunkSignature.value;
      return None;
    }
  }

  /** The whole pipeline: a fresh stream, one `_transform` per piece, `_flush` at the end. */
  method DecodeStream(env: Env, pieces: seq<seq<byte>>) returns (output: seq<byte>, error: Option<Error>)
    ensures output == Pipe(env, Start(env), pieces).output
    ensures error == Pipe(env, Start(env), pieces).error
    ensures Decode(env, Flatten(pieces), Seed(env)).longest < 1024 ==>
              && output == Decode(env, Flatten(pieces), Seed(env)).output
              && error == Decode(env, Flatten(pieces), Seed(env)).error
  {
    ghost var reference := Decode(env, Flatten(pieces), Seed(env));
    if reference.longest < MAX_HEADER_BYTES {
      FragmentationIndependent(env, pieces);
    }
    var stream := new S3ChunkedStream(env);
    for i := 0 to |pieces|
      invariant Valid(stream.View()) && stream.env == env
      invariant Pipe(env, stream.View(), pieces[i..]) == Pipe(env, Start(env), pieces)
    {
      assert pieces[i..][0] == pieces[i] && pieces[i..][1..] == pieces[i + 1..];
      error := stream.Transform(pieces[i]);
      if error.Some? {
        return stream.pushed, error;
      }
    }
    assert pieces[|pieces|..] == [];
    error := stream.Flush();
    output := stream.pushed;
  }
}
