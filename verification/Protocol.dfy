/** The worker protocol's envelope and the payloads the gateway decodes. */
module Protocol {
  import opened Prelude

  const VERSION: nat := 1

  const TYPE_HEARTBEAT: string := "heartbeat"
  const TYPE_MESSAGE_NEW: string := "message.new"
  const TYPE_ACCOUNT_STATUS: string := "account.status"

  /** A provider message; `sentAt` is absent for Go's zero time. */
  datatype WireMessage = WireMessage(
    providerMessageId: string, conversationId: string, authorName: string,
    body: string, sentAt: Option<int>, direction: string)

  /** What ingest demands of a message. */
  predicate Acceptable(m: WireMessage) {
    && m.providerMessageId != "" && m.conversationId != "" && m.sentAt.Some?
    && (m.direction == "incoming" || m.direction == "outgoing")
  }

  /** What DecodePayload makes of the raw payload for the envelope's type. */
  datatype Payload =
    | MessagePayload(message: WireMessage)
    | StatusPayload(state: string, externalId: string)
    | Undecodable

  datatype Envelope = Envelope(
    version: nat, id: string, kind: string, status: string, hasError: bool, payload: Payload)
  {
    predicate Validates() {
      && version == VERSION
      && kind != ""
      && (status == "" || status == "ok" || status == "error")
    }
  }

  // ---- sequences of envelopes ---------------------------------------------

  ghost function Ids(s: seq<Envelope>): set<string> { set e | e in s :: e.id }

  /** The envelopes of `s` whose id is in `ids`, in order. */
  ghost function Only(s: seq<Envelope>, ids: set<string>): seq<Envelope> {
    if s == [] then []
    else (if s[0].id in ids then [s[0]] else []) + Only(s[1..], ids)
  }

  lemma {:induction false} OnlyMember(s: seq<Envelope>, ids: set<string>, e: Envelope)
    ensures e in Only(s, ids) <==> e in s && e.id in ids
  {
    if s != [] {
      OnlyMember(s[1..], ids, e);
    }
  }

  lemma OnlyFirst(e: Envelope, s: seq<Envelope>, ids: set<string>)
    ensures Only([e] + s, ids) == (if e.id in ids then [e] else []) + Only(s, ids)
  {
    assert ([e] + s)[1..] == s;
  }

  lemma {:induction false} OnlyConcat(a: seq<Envelope>, b: seq<Envelope>, ids: set<string>)
    ensures Only(a + b, ids) == Only(a, ids) + Only(b, ids)
  {
    if a == [] {
      assert a + b == b;
    } else {
      var e, rest := a[0], a[1..];
      OnlyConcat(rest, b, ids);
      OnlyFirst(e, rest, ids);
      OnlyFirst(e, rest + b, ids);
      assert a == [e] + rest && a + b == [e] + (rest + b);
      var head := if e.id in ids then [e] else [];
      assert head + (Only(rest, ids) + Only(b, ids)) == head + Only(rest, ids) + Only(b, ids);
    }
  }

  /** Only the ids that occur matter. */
  lemma {:induction false} OnlyCongruent(s: seq<Envelope>, ids: set<string>, others: set<string>)
    requires forall e :: e in s ==> (e.id in ids <==> e.id in others)
    ensures Only(s, ids) == Only(s, others)
  {
    if s != [] {
      OnlyCongruent(s[1..], ids, others);
    }
  }

  lemma {:induction false} OnlyTwice(s: seq<Envelope>, ids: set<string>, others: set<string>)
    ensures Only(Only(s, ids), others) == Only(s, ids * others)
  {
    if s != [] {
      OnlyTwice(s[1..], ids, others);
      OnlyConcat(if s[0].id in ids then [s[0]] else [], Only(s[1..], ids), others);
    }
  }

  lemma {:induction false} OnlyAll(s: seq<Envelope>, ids: set<string>)
    requires Ids(s) <= ids
    ensures Only(s, ids) == s
  {
    if s != [] {
      assert s[0].id in Ids(s);
      assert Ids(s[1..]) <= Ids(s);
      OnlyAll(s[1..], ids);
    }
  }

  lemma {:induction false} OnlyNone(s: seq<Envelope>, ids: set<string>)
    requires Ids(s) !! ids
    ensures Only(s, ids) == []
  {
    if s != [] {
      assert s[0].id in Ids(s);
      assert Ids(s[1..]) <= Ids(s);
      OnlyNone(s[1..], ids);
    }
  }
}
