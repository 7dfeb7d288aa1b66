/** What a chunk's signature covers: its data and the signature before it - so in an accepted body all
    that came before. Digests are finite, so this holds as long as no two of the texts actually
    signed or hashed collide. */
module ChunkSigning {
  import opened Common
  import opened ChunkHeader
  import opened ChunkedStream
  import opened ChunkFraming

  // ---- One signature ----

  lemma DigestLine(d: Digest)
    ensures '\n' !in d
  {
    forall i | 0 <= i < |d|
      ensures d[i] != '\n'
    {
      assert d[i] in d;
    }
  }

  /** The text that is signed has six lines: the algorithm, the date, the scope, the signature before,
      the hash of the empty text and the hash of the chunk. */
  lemma ChunkLines(crypto: Crypto, context: SigningContext, previous: string, data: seq<byte>)
    requires '\n' !in context.amzDate && '\n' !in context.credentialScope && '\n' !in previous
    ensures Split(ChunkText(crypto, context, previous, crypto.sha256(data)), '\n')
            == ["AWS4-HMAC-SHA256-PAYLOAD", context.amzDate, context.credentialScope, previous, crypto.sha256([]), crypto.sha256(data)]
  {
    hide Split, Join;
    DigestLine(crypto.sha256([]));
    DigestLine(crypto.sha256(data));
    SplitJoin(["AWS4-HMAC-SHA256-PAYLOAD", context.amzDate, context.credentialScope, previous, crypto.sha256([]), crypto.sha256(data)], '\n');
  }

  /** Neither the hash nor the authentication code collides on what these two chunks make of them. */
  ghost predicate NoCollision(env: Env, previous: string, data: seq<byte>, previous': string, data': seq<byte>)
    requires env.context.Some?
  {
    var crypto, context := env.crypto, env.context.value;
    var text, text' := ChunkText(crypto, context, previous, crypto.sha256(data)), ChunkText(crypto, context, previous', crypto.sha256(data'));
    && (crypto.sha256(data) == crypto.sha256(data') ==> data == data')
    && (crypto.hmac(context.signingKey, text) == crypto.hmac(context.signingKey, text') ==> text == text')
  }

  /** What precedes the previous signature is the same in both texts, whatever it contains. */
  lemma TextTail(crypto: Crypto, context: SigningContext, previous: string, hash: string)
    ensures var head := "AWS4-HMAC-SHA256-PAYLOAD" + "\n" + (context.amzDate + "\n" + (context.credentialScope + "\n"));
            ChunkText(crypto, context, previous, hash) == head + Join([previous, crypto.sha256([]), hash], "\n")
  {
    var tail := [previous, crypto.sha256([]), hash];
    var lines := ["AWS4-HMAC-SHA256-PAYLOAD", context.amzDate, context.credentialScope] + tail;
    assert lines[1..][1..][1..] == tail;
    assert lines == ["AWS4-HMAC-SHA256-PAYLOAD", context.amzDate, context.credentialScope, previous, crypto.sha256([]), hash];
    var j3 := Join(tail, "\n");
    assert Join(lines[1..][1..], "\n") == context.credentialScope + "\n" + j3;
    assert Join(lines[1..], "\n") == context.amzDate + "\n" + (context.credentialScope + "\n" + j3);
    assert Join(lines, "\n") == "AWS4-HMAC-SHA256-PAYLOAD" + "\n" + (context.amzDate + "\n" + (context.credentialScope + "\n" + j3));
  }

  lemma SameTail(head: string, a: string, b: string)
    requires head + a == head + b
    ensures a == b
  {
    assert (head + a)[|head|..] == a && (head + b)[|head|..] == b;
  }

  /** A signature that verifies for two chunks verifies for one: the same data behind the same previous
      signature. */
  lemma SignatureCovers(env: Env, signature: string, previous: string, data: seq<byte>, previous': string, data': seq<byte>)
    requires env.context.Some? && Verifies(env, previous, Some(signature), data) && Verifies(env, previous', Some(signature), data')
    requires '\n' !in previous && '\n' !in previous' && NoCollision(env, previous, data, previous', data')
    ensures previous == previous' && data == data'
  {
    hide Split, Join;
    var crypto, context := env.crypto, env.context.value;
    var lines := [previous, crypto.sha256([]), crypto.sha256(data)];
    var lines' := [previous', crypto.sha256([]), crypto.sha256(data')];
    TextTail(crypto, context, previous, crypto.sha256(data));
    TextTail(crypto, context, previous', crypto.sha256(data'));
    SameTail("AWS4-HMAC-SHA256-PAYLOAD" + "\n" + (context.amzDate + "\n" + (context.credentialScope + "\n")), Join(lines, "\n"), Join(lines', "\n"));
    DigestLine(crypto.sha256([]));
    DigestLine(crypto.sha256(data));
    DigestLine(crypto.sha256(data'));
    SplitJoin(lines, '\n');
    SplitJoin(lines', '\n');
    assert lines[0] == lines'[0] && lines[2] == lines'[2];
  }

  // ---- Bodies ----

  /** No two chunks at the same place of the two bodies collide. */
  ghost predicate NoCollisions(env: Env, previous: string, chunks: seq<Chunk>, previous': string, chunks': seq<Chunk>)
    requires env.context.Some?
    decreases |chunks|
  {
    chunks == [] || chunks' == []
    || (&& NoCollision(env, previous, chunks[0].data, previous', chunks'[0].data)
        && NoCollisions(env, Chained(env, previous, chunks[0].signature), chunks[1..], Chained(env, previous', chunks'[0].signature), chunks'[1..]))
  }

  function Signatures(chunks: seq<Chunk>): (signatures: seq<Option<string>>)
    ensures |signatures| == |chunks| && forall i :: 0 <= i < |chunks| ==> signatures[i] == chunks[i].signature
  {
    if chunks == [] then [] else [chunks[0].signature] + Signatures(chunks[1..])
  }

  /** Two accepted signed bodies with the same signatures carry the same data, chunk by chunk, and were
      signed from the same seed. */
  lemma {:induction false} SignaturesCover(env: Env, body: seq<byte>, previous: string, chunks: seq<Chunk>, body': seq<byte>, previous': string,
                                           chunks': seq<Chunk>)
    requires env.context.Some? && '\n' !in previous && '\n' !in previous'
    requires Framing(env, body, previous, chunks) && Framing(env, body', previous', chunks')
    requires Signatures(chunks) == Signatures(chunks') && NoCollisions(env, previous, chunks, previous', chunks')
    ensures previous == previous' && |chunks| == |chunks'|
    ensures forall i :: 0 <= i < |chunks| ==> chunks[i].data == chunks'[i].data
    ensures Payload(chunks) == Payload(chunks')
    decreases |chunks|
  {
    hide FindCrlf, ParseHeader, Framed, Verifies, NoCollision;
    var c, c' := chunks[0], chunks'[0];
    assert c.signature == Signatures(chunks)[0] == c'.signature;
    SignaturesChain(env, body, previous, chunks, 0);
    SignatureCovers(env, c.signature.value, previous, c.data, previous', c'.data);
    SignedLine(env, previous, c);
    if |chunks| > 1 {
      assert Signatures(chunks)[1..] == Signatures(chunks[1..]) && Signatures(chunks')[1..] == Signatures(chunks'[1..]);
      SignaturesCover(env, body[|Framed(c)|..], c.signature.value, chunks[1..], body'[|Framed(c')|..], c.signature.value, chunks'[1..]);
      assert forall i :: 1 <= i < |chunks| ==> chunks[i] == chunks[1..][i - 1] && chunks'[i] == chunks'[1..][i - 1];
    } else {
      assert chunks[1..] == [] && chunks'[1..] == [];
    }
  }

  lemma SignedLine(env: Env, previous: string, c: Chunk)
    requires env.context.Some? && c.signature.Some? && Verifies(env, previous, c.signature, c.data)
    ensures '\n' !in c.signature.value && Chained(env, previous, c.signature) == c.signature.value
  {
    DigestLine(Expected(env, previous, c.data));
  }

  /** In terms of the decoder's answers: what two accepted bodies deliver under the same signatures is
      the same. */
  lemma AcceptedCover(env: Env, body: seq<byte>, chunks: seq<Chunk>, body': seq<byte>, chunks': seq<Chunk>)
    requires env.context.Some? && '\n' !in Seed(env)
    requires Framing(env, body, Seed(env), chunks) && Framing(env, body', Seed(env), chunks')
    requires Signatures(chunks) == Signatures(chunks') && NoCollisions(env, Seed(env), chunks, Seed(env), chunks')
    ensures Decode(env, body, Seed(env)).error == None && Decode(env, body', Seed(env)).error == None
    ensures Decode(env, body, Seed(env)).output == Decode(env, body', Seed(env)).output
  {
    hide Decode, Framing, NoCollisions;
    SignaturesCover(env, body, Seed(env), chunks, body', Seed(env), chunks');
    FramingAccepted(env, body, Seed(env), chunks);
    FramingAccepted(env, body', Seed(env), chunks');
  }
}
