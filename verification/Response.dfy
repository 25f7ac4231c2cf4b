/** src/sip/esomsg.c: building the response to a request. */
module ResponseBuilder {
  import opened SipMessages

  /** What the allocator and the random source answer while one response is built. */
  datatype BuildLuck = BuildLuck(
    message: bool,          // osip_message_init succeeds
    cseq: bool,             // cloning a present CSeq succeeds
    callId: bool,           // cloning a present Call-ID succeeds
    viaFault: Option<nat>,  // index of the Via whose clone fails, if any
    random: UInt32)         // osip_build_random_number

  /** The request carries every header a response copies, and no allocation fails. */
  predicate Buildable(req: Message, luck: BuildLuck) {
    && req.to.Some? && req.from.Some? && req.cseq.Some? && req.callId.Some?
    && luck.message && luck.cseq && luck.callId
    && (luck.viaFault.Some? ==> |req.vias| <= luck.viaFault.value)
  }

  function WithTag(to: Address, random: UInt32): Address {
    if to.tag.None? then to.(tag := Some(TagText(random))) else to
  }

  /** The response the section 8.2.6 rules of RFC 3261 ask for. */
  function ResponseTo(code: nat, req: Message, random: UInt32): Message
    requires req.to.Some?
  {
    req.(start := StatusLine(code), to := Some(WithTag(req.to.value, random)))
  }

  /**
   * es_msg_initResponse. `before` is what the caller's output pointer holds on entry and `res` what it
   * holds on return; `created` and `released` count osip_message_init and osip_message_free on the
   * message under construction.
   */
  method InitResponse(before: Option<Message>, respCode: int, req: Option<Message>, luck: BuildLuck)
    returns (status: Status, res: Option<Message>, created: nat, released: nat)
    ensures status == Ok <==>
            && req.Some? && req.value.to.Some? && req.value.from.Some? && req.value.cseq.Some? && req.value.callId.Some?
            && luck.message && luck.cseq && luck.callId
            && (luck.viaFault.None? || |req.value.vias| <= luck.viaFault.value)
    ensures status == Ok <==> req.Some? && Buildable(req.value, luck)
    ensures status == Ok ==>
              && res.Some?
              && res.value.vias == req.value.vias
              && res.value.from == req.value.from
              && res.value.callId == req.value.callId
              && res.value.cseq == req.value.cseq
              && res.value.start == StatusLine(if respCode > 0 then respCode else 0)
              && res.value.to.Some? && res.value.to.value.uri == req.value.to.value.uri
              && res.value.to.value.tag.Some?
              && (req.value.to.value.tag.Some? ==> res.value.to == req.value.to)
              && (req.value.to.value.tag.None? ==> res.value.to.value.tag == Some(TagText(luck.random)))
              && created == 1 && released == 0
    ensures status != Ok ==> res == before && released == created
    ensures status == NullPointer <==> req.Some? && (req.value.to.None? || req.value.from.None?)
    ensures status in {Ok, NullPointer, OutOfResources}
    ensures created == if req.Some? && status != NullPointer && luck.message then 1 else 0
    ensures status == Ok && respCode > 0 ==> res == Some(ResponseTo(respCode, req.value, luck.random))
  {
    status, res, created, released := OutOfResources, before, 0, 0;
    if req.None? {
      return;
    }
    var r := req.value;
    if r.to.None? {
      status := NullPointer;
      return;
    }
    if r.from.None? {
      status := NullPointer;
      return;
    }
    if !luck.message {
      return;
    }
    created := 1;
    var msg := Message(StatusLine(0), [], None, None, None, None);
    if respCode > 0 {
      msg := msg.(start := StatusLine(respCode));
    }
    msg := msg.(from := r.from);
    msg := msg.(to := r.to);
    if msg.to.value.tag.None? {
      msg := msg.(to := Some(msg.to.value.(tag := Some(TagText(luck.random)))));
    }
    if r.cseq.None? || !luck.cseq {
      released := 1;
      return;
    }
    msg := msg.(cseq := r.cseq);
    if r.callId.None? || !luck.callId {
      released := 1;
      return;
    }
    msg := msg.(callId := r.callId);
    var pos := 0;
    while pos < |r.vias|
      invariant 0 <= pos <= |r.vias|
      invariant msg.vias == r.vias[..pos]
      invariant luck.viaFault.Some? ==> pos <= luck.viaFault.value
      invariant msg.start == StatusLine(if respCode > 0 then respCode else 0)
      invariant msg.from == r.from && msg.cseq == r.cseq && msg.callId == r.callId
      invariant msg.to == Some(WithTag(r.to.value, luck.random))
    {
      if luck.viaFault == Some(pos) {
        released := 1;
        return;
      }
      msg := msg.(vias := msg.vias + [r.vias[pos]]);
      pos := pos + 1;
    }
    status, res := Ok, Some(msg);
  }
}
