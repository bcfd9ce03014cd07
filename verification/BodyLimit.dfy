/** The streaming request-body limit (app/main.py). */
module BodyLimit {
  import opened Utf8

  /** An ASGI message: a piece of the body, or anything else. */
  datatype Message = Piece(body: Bytes) | Other(kind: string)

  /** The Content-Length header: absent, not an integer, or its value. */
  datatype Declared = NoLength | Unreadable | Length(n: int)

  datatype Received = Passed(message: Message) | TooLarge

  datatype Outcome =
    | Refused(status: int)              // answered before the application runs
    | Aborted(seen: seq<Message>)       // the application saw these, then a 413
    | Complete(seen: seq<Message>)

  const ATTACHMENT_ROUTE_PATH := "/api/v1/diagnostics/attachment"

  datatype Caps = Caps(maxBlob: nat, maxBody: nat)

  function CapForPath(caps: Caps, path: string): nat {
    if path == ATTACHMENT_ROUTE_PATH then caps.maxBlob * 2 else caps.maxBody
  }

  function Size(m: Message): nat {
    if m.Piece? then |m.body| else 0
  }

  /** The body the pieces spell out. */
  function Body(messages: seq<Message>): Bytes {
    if messages == [] then []
    else Body(messages[..|messages| - 1]) + (if messages[|messages| - 1].Piece? then messages[|messages| - 1].body else [])
  }

  /** Twice the blob size on the one route that takes base64 attachments, the general limit
      everywhere else. */
  predicate CapIs(caps: Caps, path: string, cap: nat) {
    && (path == "/api/v1/diagnostics/attachment" ==> cap == 2 * caps.maxBlob)
    && (path != "/api/v1/diagnostics/attachment" ==> cap == caps.maxBody)
  }

  class BodyLimiter {
    const cap: nat
    var total: nat

    constructor (cap: nat)
      ensures this.cap == cap && total == 0
    {
      this.cap, total := cap, 0;
    }

    method LimitedReceive(m: Message) returns (r: Received)
      modifies this`total
      ensures total == old(total) + Size(m)
      ensures r == if m.Piece? && total > cap then TooLarge else Passed(m)
    {
      if m.Piece? {
        total := total + |m.body|;
        if total > cap {
          return TooLarge;
        }
      }
      r := Passed(m);
    }
  }

  /** What the declared length allows: a refusal, or going on. */
  predicate DeclaredFits(declared: Declared, cap: nat) {
    declared.NoLength? || (declared.Length? && declared.n <= cap)
  }

  /** How many messages get through before one makes the running total pass the cap. */
  function Through(cap: nat, messages: seq<Message>): (k: nat)
    ensures k <= |messages|
  {
    if messages == [] then 0
    else
      var n := |messages| - 1;
      var k := Through(cap, messages[..n]);
      if k < n || (messages[n].Piece? && |Body(messages)| > cap) then k else n + 1
  }

  function Answer(cap: nat, declared: Declared, messages: seq<Message>): Outcome {
    if declared.Unreadable? then Refused(400)
    else if !DeclaredFits(declared, cap) then Refused(413)
    else if Through(cap, messages) < |messages| then Aborted(messages[..Through(cap, messages)])
    else Complete(messages)
  }

  /** All the messages before the first piece that takes the body past the cap. */
  predicate LongestWithin(cap: nat, messages: seq<Message>, seen: seq<Message>) {
    && |seen| < |messages| && seen == messages[..|seen|] && |Body(seen)| <= cap
    && messages[|seen|].Piece? && |Body(messages[..|seen| + 1])| > cap
  }

  lemma {:induction false} HandleMeaning(cap: nat, declared: Declared, messages: seq<Message>)
    ensures var o := Answer(cap, declared, messages);
            && (o == Refused(400) <==> declared.Unreadable?)
            && (o == Refused(413) <==> declared.Length? && declared.n > cap)
            && (o.Complete? <==> (declared.NoLength? || (declared.Length? && declared.n <= cap)) && |Body(messages)| <= cap)
            && (o.Complete? ==> o.seen == messages)
            && (o.Aborted? ==> LongestWithin(cap, messages, o.seen))
  {
    ThroughMeaning(cap, messages);
    ThroughCut(cap, messages);
  }

  lemma {:induction false} ThroughCut(cap: nat, messages: seq<Message>)
    ensures Through(cap, messages) < |messages| ==> LongestWithin(cap, messages, messages[..Through(cap, messages)])
  {
    if messages != [] {
      var n := |messages| - 1;
      var k := Through(cap, messages[..n]);
      ThroughCut(cap, messages[..n]);
      ThroughMeaning(cap, messages[..n]);
      assert messages[..n + 1] == messages;
      assert messages[..n][..k] == messages[..k];
      if k < n {
        assert messages[..n][..k + 1] == messages[..k + 1];
      }
    }
  }

  /** One request: the declared length first, then the application draining the messages. */
  method Handle(caps: Caps, path: string, declared: Declared, messages: seq<Message>) returns (o: Outcome)
    ensures o == Answer(CapForPath(caps, path), declared, messages)
    ensures forall cap: nat | CapIs(caps, path, cap) ::
              && (o == Refused(400) <==> declared.Unreadable?)
              && (o == Refused(413) <==> declared.Length? && declared.n > cap)
              && (o.Complete? <==> (declared.NoLength? || (declared.Length? && declared.n <= cap)) && |Body(messages)| <= cap)
              && (o.Complete? ==> o.seen == messages)
              && (o.Aborted? ==> LongestWithin(cap, messages, o.seen))
  {
    HandleMeaning(CapForPath(caps, path), declared, messages);
    var cap := CapForPath(caps, path);
    if declared.Unreadable? {
      return Refused(400);
    }
    if declared.Length? && declared.n > cap {
      return Refused(413);
    }
    var limiter := new BodyLimiter(cap);
    for i := 0 to |messages|
      invariant limiter.cap == cap && limiter.total == |Body(messages[..i])|
      invariant Through(cap, messages[..i]) == i
    {
      assert messages[..i + 1][..i] == messages[..i];
      var r := limiter.LimitedReceive(messages[i]);
      if r.TooLarge? {
        ThroughStops(cap, messages, i);
        return Aborted(messages[..i]);
      }
    }
    assert messages[..|messages|] == messages;
    o := Complete(messages);
  }

  lemma {:induction false} ThroughStops(cap: nat, messages: seq<Message>, i: nat)
    requires i < |messages| && Through(cap, messages[..i + 1]) == i
    ensures Through(cap, messages) == i
  {
    var n := |messages| - 1;
    if i < n {
      assert messages[..n][..i + 1] == messages[..i + 1];
      ThroughStops(cap, messages[..n], i);
    } else {
      assert messages[..i + 1] == messages;
    }
  }

  lemma {:induction false} BodyGrows(messages: seq<Message>, i: nat)
    requires i <= |messages|
    ensures Body(messages[..i]) <= Body(messages)
  {
    if i < |messages| {
      BodyGrows(messages[..|messages| - 1], i);
      assert messages[..|messages| - 1][..i] == messages[..i];
    } else {
      assert messages[..i] == messages;
    }
  }

  lemma {:induction false} ThroughMeaning(cap: nat, messages: seq<Message>)
    ensures |Body(messages[..Through(cap, messages)])| <= cap
    ensures Through(cap, messages) == |messages| <==> |Body(messages)| <= cap
  {
    if messages != [] {
      var n := |messages| - 1;
      var k := Through(cap, messages[..n]);
      ThroughMeaning(cap, messages[..n]);
      BodyGrows(messages, n);
      assert messages[..n][..k] == messages[..k];
      assert messages[..n + 1] == messages;
    }
  }

  /** With a declared length that fits, the application sees an unmodified prefix of the body
      of at most `cap` bytes, and all of it exactly when the body is no longer than that. */
  lemma {:induction false} SeesPrefixWithinCap(cap: nat, declared: Declared, messages: seq<Message>)
    requires DeclaredFits(declared, cap)
    ensures var o := Answer(cap, declared, messages);
            && !o.Refused? && o.seen <= messages
            && Body(o.seen) <= Body(messages) && |Body(o.seen)| <= cap
            && (o.Complete? <==> |Body(messages)| <= cap)
            && (o.Complete? ==> Body(o.seen) == Body(messages))
  {
    var k := Through(cap, messages);
    ThroughMeaning(cap, messages);
    BodyGrows(messages, k);
    assert messages[..|messages|] == messages;
  }

  /** However one body is cut into messages, and whatever fitting lengths are declared, the
      verdict is the same and a complete request delivers the same bytes. */
  lemma {:induction false} ChunkingDoesNotMatter(cap: nat, d1: Declared, m1: seq<Message>, d2: Declared, m2: seq<Message>)
    requires Body(m1) == Body(m2) && DeclaredFits(d1, cap) && DeclaredFits(d2, cap)
    ensures var o1, o2 := Answer(cap, d1, m1), Answer(cap, d2, m2);
            && (o1.Complete? <==> o2.Complete?)
            && (o1.Complete? ==> Body(o1.seen) == Body(o2.seen))
  {
    SeesPrefixWithinCap(cap, d1, m1);
    SeesPrefixWithinCap(cap, d2, m2);
  }
}
