/** Dialogs, and the newest-first list search of src/sip/esosip.c. */
module Dialogs {
  import opened SipMessages

  /** A UAS dialog: section 12.1.1 of RFC 3261. `invite` stands for the state copied from the request. */
  datatype Dialog = Dialog(callId: string, localTag: Option<string>, remoteTag: Option<string>, invite: Message)

  datatype Key = Key(callId: string, localTag: Option<string>, remoteTag: Option<string>)

  function KeyOf(d: Dialog): Key {
    Key(d.callId, d.localTag, d.remoteTag)
  }

  /** The dialog an incoming request addresses, if it has the headers for one. */
  function RequestKey(m: Message): Option<Key> {
    if m.callId.Some? && m.to.Some? && m.from.Some?
    then Some(Key(m.callId.value, m.to.value.tag, m.from.value.tag))
    else None
  }

  /** osip_dialog_match_as_uas: Call-ID, To tag against local tag, From tag against remote tag. */
  predicate Matches(d: Dialog, m: Message) {
    && m.callId.Some? && m.to.Some? && m.from.Some?
    && m.callId.value == d.callId
    && m.to.value.tag == d.localTag
    && m.from.value.tag == d.remoteTag
  }

  /** osip_dialog_init_as_uas: none when the INVITE or a header the dialog needs is missing. */
  function DialogFor(invite: Option<Message>, resp: Message): Option<Dialog> {
    if invite.Some? && resp.callId.Some? && resp.to.Some? && resp.from.Some?
    then Some(Dialog(resp.callId.value, resp.to.value.tag, resp.from.value.tag, invite.value))
    else None
  }

  function FirstMatch(list: seq<Dialog>, m: Message): Option<Dialog> {
    if list == [] then None
    else if Matches(list[0], m) then Some(list[0])
    else FirstMatch(list[1..], m)
  }

  /** The search returns element k exactly when k is the first that matches, and none exactly when none does. */
  lemma {:induction false} FirstMatchIsFirst(list: seq<Dialog>, m: Message)
    ensures FirstMatch(list, m) == None <==> forall j :: 0 <= j < |list| ==> !Matches(list[j], m)
    ensures FirstMatch(list, m).Some? ==>
              exists k :: 0 <= k < |list| && Matches(list[k], m) && FirstMatch(list, m) == Some(list[k]) &&
                          forall j :: 0 <= j < k ==> !Matches(list[j], m)
  {
    if list != [] && !Matches(list[0], m) {
      FirstMatchIsFirst(list[1..], m);
      assert forall j :: 0 <= j < |list[1..]| ==> list[1..][j] == list[j + 1];
      assert forall j :: 1 <= j < |list| ==> list[j] == list[1..][j - 1];
      if FirstMatch(list, m).Some? {
        var k :| 0 <= k < |list[1..]| && Matches(list[1..][k], m) && FirstMatch(list[1..], m) == Some(list[1..][k]) &&
          forall j :: 0 <= j < k ==> !Matches(list[1..][j], m);
        assert list[k + 1] == list[1..][k];
        forall j | 0 <= j < k + 1 ensures !Matches(list[j], m) {
          if j > 0 { assert list[j] == list[1..][j - 1]; }
        }
      }
    }
  }

  /** A dialog map filled oldest first, so that a newer dialog replaces an older one with its key. */
  function DialogMap(list: seq<Dialog>): map<Key, Dialog> {
    if list == [] then map[] else DialogMap(list[1..])[KeyOf(list[0]) := list[0]]
  }

  /** Searching the newest-first list is looking the request's identity up in the map. */
  lemma {:induction false} FirstMatchIsMapLookup(list: seq<Dialog>, m: Message)
    ensures RequestKey(m).None? ==> FirstMatch(list, m) == None
    ensures RequestKey(m).Some? ==>
              FirstMatch(list, m) ==
              if RequestKey(m).value in DialogMap(list) then Some(DialogMap(list)[RequestKey(m).value]) else None
  {
    if list != [] {
      FirstMatchIsMapLookup(list[1..], m);
    }
  }
}
