/** Sending and receiving a text: the one payload without a manifest. */
module TextTransfer {
  import opened Prelude
  import opened Utf8
  import opened Outcomes
  import opened TextOffers
  import opened Wire
  import opened PayloadReceiver
  import opened TransferTheorems
  import opened TransferEndings
  import opened PayloadSender
  import opened SenderTheorems

  // ----- reception -----

  datatype TextReception = TextOk(text: string, rest: Bytes) | TextBad(failure: ReceiveFailure)

  /** The text branch of `receive_payload`. */
  ghost function ReceiveText(c: Codec, sha: Sha, req: RequestId, expected: U64, input: Bytes): TextReception {
    if |input| < expected then TextBad(StreamIo)
    else
      var body, after := input[..expected], input[expected..];
      var end := ReadFrame(c, after);
      if !end.Frame? then TextBad(BadRead(end, 0, expected))
      else if end.message != TextEnd(req, sha(body)) then TextBad(Unexpected(end.message, req, 0, expected))
      else ReceiveTextComplete(c, sha, req, body, after[end.size..])
  }

  ghost function ReceiveTextComplete(c: Codec, sha: Sha, req: RequestId, body: Bytes, input: Bytes): TextReception {
    var read := ReadFrame(c, input);
    var counted := Min(|body|, U64_MAX);
    if !read.Frame? then TextBad(BadRead(read, 0, 0))
    else if read.message.FetchAbort? then
      TextBad(Aborted(read.message.abort, read.message.filesSent, read.message.bytesSent))
    else if !read.message.FetchComplete? then TextBad(Verification(0, 0))
    else if read.message != FetchComplete(req, 0, counted, sha(body)) then TextBad(Verification(0, counted))
    else if text :| Encode(text) == body then TextOk(text, input[read.size..])
    else TextBad(Verification(0, counted))
  }

  lemma TextCompleteIff(c: Codec, sha: Sha, req: RequestId, body: Bytes, input: Bytes, text: string, rest: Bytes)
    ensures ReceiveTextComplete(c, sha, req, body, input) == TextOk(text, rest) <==>
            && body == Encode(text)
            && Reads(c, input, [Control(FetchComplete(req, 0, Min(|body|, U64_MAX), sha(body)))], rest)
  {
    ReadsControl(c, input, FetchComplete(req, 0, Min(|body|, U64_MAX), sha(body)), rest);
    hide Encode, Reads, ReadFrame;
    if other :| Encode(other) == body && Encode(text) == body { EncodeIsInjective(other, text); }
    forall other | Encode(other) == body && Encode(text) == body
      ensures other == text
    {
      EncodeIsInjective(other, text);
    }
  }

  lemma TextSplits(c: Codec, sha: Sha, req: RequestId, text: string, input: Bytes, rest: Bytes)
    ensures var body := Encode(text);
      Reads(c, input, StreamText(sha, req, text), rest) <==>
        && |input| >= |body| && input[..|body|] == body
        && var end := ReadFrame(c, input[|body|..]);
        && end.Frame? && end.message == TextEnd(req, sha(body))
        && Reads(c, input[|body|..][end.size..], [Control(FetchComplete(req, 0, Min(|body|, U64_MAX), sha(body)))],
          rest)
  {
    var body := Encode(text);
    var end, close := Control(TextEnd(req, sha(body))), Control(FetchComplete(req, 0, Min(|body|, U64_MAX), sha(body)));
    assert StreamText(sha, req, text) == Raw(body) + [end, close];
    hide Reads, ReadFrame, Encode, StreamText;
    ReadsConcat(c, input, Raw(body), [end, close], rest);
    forall middle
      ensures Reads(c, input, Raw(body), middle)
          <==> |input| >= |body| && input[..|body|] == body && input[|body|..] == middle
    {
      ReadsRaw(c, input, body, middle);
      if |input| >= |body| { assert input == input[..|body|] + input[|body|..]; }
    }
    if |input| >= |body| { ReadsTwo(c, input[|body|..], end.message, close, rest); }
  }

  lemma ReadsTwo(c: Codec, input: Bytes, m: Message, next: Token, rest: Bytes)
    ensures Reads(c, input, [Control(m), next], rest) <==>
            var read := ReadFrame(c, input);
            read.Frame? && read.message == m && Reads(c, input[read.size..], [next], rest)
  {
    assert [Control(m), next][1..] == [next];
  }

  /**
   * A receiver takes `text` and stops at `rest` exactly when the peer's bytes spell it: its UTF-8
   * form of the announced length, its digest, and a completion that repeats both.
   */
  lemma TextReceivedIffSpelled(c: Codec, sha: Sha, req: RequestId, expected: U64, input: Bytes, text: string,
      rest: Bytes)
    ensures ReceiveText(c, sha, req, expected, input) == TextOk(text, rest)
       <==> ByteLen(text) == expected && Reads(c, input, StreamText(sha, req, text), rest)
  {
    TextSplits(c, sha, req, text, input, rest);
    hide Reads, ReadFrame, ReceiveTextComplete, StreamText, Encode;
    if |input| >= expected {
      var body, after := input[..expected], input[expected..];
      var end := ReadFrame(c, after);
      if end.Frame? { TextCompleteIff(c, sha, req, body, after[end.size..], text, rest); }
    }
  }

  /**
   * A text that is cut short is a stream failure inside its bytes and a disconnection behind them, and
   * an abort behind them is reported as what the sender said.
   */
  lemma CutTextIsReported(c: Codec, sha: Sha, req: RequestId, expected: U64, input: Bytes, cut: nat)
    requires ReceiveText(c, sha, req, expected, input).TextOk?
    requires cut < |input| - |ReceiveText(c, sha, req, expected, input).rest|
    ensures var ended := expected + ReadFrame(c, input[expected..]).size;
      ReceiveText(c, sha, req, expected, input[..cut])
      == TextBad(if cut < expected then StreamIo
                 else if cut < ended then Disconnected(0, expected) else Disconnected(0, 0))
  {
    hide ReadFrame, Encode;
    var after := input[expected..];
    var size := ReadFrame(c, after).size;
    if cut >= expected {
      assert input[..cut][..expected] == input[..expected] && input[..cut][expected..] == after[..cut - expected];
      CutFrame(c, after, cut - expected);
      if cut - expected >= size {
        assert after[..cut - expected][size..] == after[size..][..cut - expected - size];
        CutFrame(c, after[size..], cut - expected - size);
      }
    }
  }

  lemma AbortedTextIsReported(c: Codec, sha: Sha, req: RequestId, body: Bytes, after: Bytes, code: AbortCode,
                              files: U32, bytes: U64)
    requires |body| <= U64_MAX && ReadFrame(c, after).Frame?
    ensures ReadFrame(c, after).message == FetchAbort(req, code, files, bytes) ==>
              ReceiveText(c, sha, req, |body|, body + after) == TextBad(Aborted(code, files, bytes))
    ensures var next := after[ReadFrame(c, after).size..];
      ReadFrame(c, after).message == TextEnd(req, sha(body)) && ReadFrame(c, next).Frame?
      && ReadFrame(c, next).message == FetchAbort(req, code, files, bytes) ==>
        ReceiveText(c, sha, req, |body|, body + after) == TextBad(Aborted(code, files, bytes))
  {
    hide ReadFrame, Encode;
    assert (body + after)[..|body|] == body && (body + after)[|body|..] == after;
  }

  /** `validate_header` for a text offer: the announced digest need only be 32 bytes long. */
  predicate TextHeaderOk(header: Message, card: Descriptor, req: RequestId, offer: OfferId) {
    && header.FetchHeader? && header.requestId == req && header.offerId == offer && header.descriptor == card
    && card.TextOffer? && header.manifestEntries == 0 && header.manifestEncodedBytes == 0 && header.headerSha == None
    && header.textSha.Some? && |header.textSha.value| == 32
  }

  /**
   * Every text that can be offered arrives as it was, whatever 32 bytes its header announced as the
   * digest: that field is never compared with what was received.
   */
  lemma TextArrives(c: Codec, sha: Sha, req: RequestId, offer: OfferId, plan: SourcePlan, life: SourceLife,
                    header: Message, card: Descriptor, rest: Bytes)
    requires Lawful(c) && IsDigest(sha) && plan.text.Some? && |plan.files| == |life.views|
    requires TextHeaderOk(header, card, req, offer)
    requires DescribeText(plan.text.value) == Success(card.text)
    ensures var sent := Serve(sha, req, plan, FetchAdmission(req, AdmissionCode.Accepted), life);
      && Sendable(c, sent)
      && ReceiveText(c, sha, req, card.text.utf8Bytes, Render(c, sent) + rest) == TextOk(plan.text.value, rest)
  {
    var text := plan.text.value;
    var body := Encode(text);
    var end, close := TextEnd(req, sha(body)), FetchComplete(req, 0, Min(|body|, U64_MAX), sha(body));
    assert IsSmall(end) && IsSmall(close);
    assert EncodeFrame(c, end).Some? && EncodeFrame(c, close).Some?;
    var sent := StreamText(sha, req, text);
    assert Sendable(c, sent);
    hide Reads, Render, ReceiveText;
    RenderedStreamReadsBack(c, sent, rest);
    TextReceivedIffSpelled(c, sha, req, card.text.utf8Bytes, Render(c, sent) + rest, text, rest);
  }
}
