/** The organization chat under `/api/messages/:orgId`. Only members may
    post or read. A post stores the trimmed text with the sender's stored
    profile; a read returns the newest messages of the thread, oldest first,
    ordered by timestamp with the message key breaking ties. */
module Messages {
  import opened Common
  import opened Tokens
  import opened Store
  import opened Http
  import opened Ordering
  import opened Snapshot
  import opened JsText

  const TEXT_REQUIRED := "Message text is required"
  const NOT_A_MEMBER := "You are not a member of this organization"
  const DEFAULT_LIMIT := 50

  /** The membership test `organizations/{orgId}/members/{uid}` exists. */
  predicate IsMember(orgs: map<OrgId, Org>, orgId: OrgId, uid: Uid) {
    orgId in orgs && uid in orgs[orgId].members
  }

  function MessageRowOf(id: nat, m: Message): MessageRow {
    MessageRow(id, m)
  }

  function MessageRowId(r: MessageRow): nat { r.id }

  /** `orderByChild('timestamp')`: by timestamp, then by key. */
  function MessageKey(r: MessageRow): SortKey {
    (r.message.timestamp, r.id)
  }

  /** The last `n` elements of `s` (all of them when there are fewer). */
  function LastN<T>(s: seq<T>, n: nat): (r: seq<T>)
    ensures |r| == if n < |s| then n else |s|
    ensures r == s[|s| - |r|..]
  {
    if n < |s| then s[|s| - n..] else s
  }

  /** A whole thread in query order. */
  function SortedThread(rows: seq<MessageRow>): seq<MessageRow> {
    SortBy(rows, MessageKey)
  }

  /** The query keeps every child. */
  predicate AnyMessage(k: nat, m: Message) { true }

  ghost function Thread(msgs: map<MsgId, Message>): seq<MessageRow> {
    SortedThread(Collect(Ascending(msgs.Keys), msgs, AnyMessage, MessageRowOf))
  }

  /** The thread holds every stored message once, as stored, strictly in
      query order. */
  lemma ThreadExact(msgs: map<MsgId, Message>)
    ensures StrictlySorted(Thread(msgs), MessageKey)
    ensures |Thread(msgs)| == |msgs|
    ensures forall r :: r in Thread(msgs) ==> r.id in msgs && r.message == msgs[r.id]
    ensures forall id :: id in msgs ==> MessageRow(id, msgs[id]) in Thread(msgs)
  {
    var rows := Collect(Ascending(msgs.Keys), msgs, AnyMessage, MessageRowOf);
    AscendingEnumerates(msgs.Keys);
    CollectAll(Ascending(msgs.Keys), msgs, AnyMessage, MessageRowOf);
    CollectExact(msgs.Keys, msgs, AnyMessage, MessageRowOf, MessageRowId);
    assert DistinctKeys(rows, MessageKey) by {
      forall i, j | 0 <= i < j < |rows| ensures MessageKey(rows[i]) != MessageKey(rows[j]) {
        assert MessageRowId(rows[i]) < MessageRowId(rows[j]);
      }
    }
    SortBySorted(rows, MessageKey);
    forall r | r in Thread(msgs) ensures r in rows {
      assert r in multiset(Thread(msgs));
    }
    forall id | id in msgs ensures MessageRow(id, msgs[id]) in Thread(msgs) {
      assert MessageRow(id, msgs[id]) in rows;
      assert MessageRow(id, msgs[id]) in multiset(rows);
    }
  }

  /** The last `n` of a sorted sequence stay sorted, and everything left
      out comes before everything kept. */
  lemma WindowOrder<T>(t: seq<T>, n: nat, key: T -> SortKey)
    requires StrictlySorted(t, key)
    ensures StrictlySorted(LastN(t, n), key)
    ensures forall x, r :: x in t && r in LastN(t, n) && x !in LastN(t, n) ==> KeyLess(key(x), key(r))
  {
    var w := LastN(t, n);
    var start := |t| - |w|;
    forall x, r | x in t && r in w && x !in w ensures KeyLess(key(x), key(r)) {
      var i :| 0 <= i < |t| && t[i] == x;
      var j :| 0 <= j < |w| && w[j] == r;
      assert t[start + j] == r;
      assert forall k :: start <= k < |t| ==> t[k] == w[k - start];
    }
  }

  /** The window `limitToLast(n)` returns: at most `n` stored messages,
      in query order, and no message left out is newer than one returned. */
  lemma {:induction false} LatestWindow(msgs: map<MsgId, Message>, n: nat)
    ensures var w := LastN(Thread(msgs), n);
            && |w| == (if n < |msgs| then n else |msgs|)
            && StrictlySorted(w, MessageKey)
            && (forall r :: r in w ==> r.id in msgs && r.message == msgs[r.id])
            && (forall id, r :: id in msgs && r in w && MessageRow(id, msgs[id]) !in w ==>
                  KeyLess(MessageKey(MessageRow(id, msgs[id])), MessageKey(r)))
  {
    ThreadExact(msgs);
    WindowOrder(Thread(msgs), n, MessageKey);
  }

  /** In a strictly sorted sequence, an element above all the others is the
      last one. */
  lemma MaxIsLast<T>(t: seq<T>, key: T -> SortKey, x: T)
    requires StrictlySorted(t, key) && x in t
    requires forall y :: y in t && y != x ==> KeyLess(key(y), key(x))
    ensures t[|t| - 1] == x
  {
    var i :| 0 <= i < |t| && t[i] == x;
  }

  /** A row above every stored message ends any sorted listing of the
      store with it added, so a non-empty tail of that listing holds it. */
  lemma NewestInTail(t: seq<MessageRow>, msgs: map<MsgId, Message>, id: MsgId, m: Message, n: nat)
    requires StrictlySorted(t, MessageKey) && MessageRow(id, m) in t
    requires forall r :: r in t ==> r.id in msgs[id := m] && r.message == msgs[id := m][r.id]
    requires forall k :: k in msgs ==> KeyLess((msgs[k].timestamp, k), (m.timestamp, id))
    requires n >= 1
    ensures MessageRow(id, m) in LastN(t, n)
  {
    var x := MessageRow(id, m);
    forall y | y in t && y != x ensures KeyLess(MessageKey(y), MessageKey(x)) {
      assert y.id != id;
      assert y.id in msgs && y.message == msgs[y.id];
    }
    MaxIsLast(t, MessageKey, x);
    var w := LastN(t, n);
    assert w[|w| - 1] == t[|t| - 1];
  }

  /** A message stored with a key above every other one is in any
      non-empty window read afterwards. */
  lemma NewestIsRead(msgs: map<MsgId, Message>, id: MsgId, m: Message, n: nat)
    requires forall k :: k in msgs ==> KeyLess((msgs[k].timestamp, k), (m.timestamp, id))
    requires n >= 1
    ensures MessageRow(id, m) in LastN(Thread(msgs[id := m]), n)
  {
    ThreadExact(msgs[id := m]);
    assert msgs[id := m][id] == m;
    NewestInTail(Thread(msgs[id := m]), msgs, id, m, n);
  }

  /** `POST /:orgId`: the text is checked before membership; a stored
      message keeps only the trimmed text. The fresh push key and the
      clock are parameters. */
  method Send(db: Database, user: Principal, orgId: OrgId, text: string, msgId: MsgId, nowMs: nat)
    returns (res: Response)
    requires msgId !in MessagesOf(db.messages, orgId)   // `push().key` is a fresh key
    modifies db`messages
    ensures Blank(text) ==> res == Fail(400, TEXT_REQUIRED) && db.messages == old(db.messages)
    ensures !Blank(text) && !IsMember(db.orgs, orgId, user.uid) ==>
              res == Fail(403, NOT_A_MEMBER) && db.messages == old(db.messages)
    ensures !Blank(text) && IsMember(db.orgs, orgId, user.uid) ==>
              var data := Message(user.uid, user.name, user.role, Trim(text), nowMs);
              && db.messages == old(db.messages)[orgId := MessagesOf(old(db.messages), orgId)[msgId := data]]
              && res == Reply(201, MessageSent(msgId, data))
              && data.text != [] && Trim(data.text) == data.text
  {
    TrimEmptyIffBlank(text);
    if text == [] || Trim(text) == [] {
      return Fail(400, TEXT_REQUIRED);
    }
    if !(orgId in db.orgs && user.uid in db.orgs[orgId].members) {
      return Fail(403, NOT_A_MEMBER);
    }
    var messageData := Message(user.uid, user.name, user.role, Trim(text), nowMs);
    db.messages := db.messages[orgId := MessagesOf(db.messages, orgId)[msgId := messageData]];
    TrimIdempotent(text);
    res := Reply(201, MessageSent(msgId, messageData));
  }

  /** `parseInt(req.query.limit) || 50`: a missing, unparsable or zero limit
      reads as 50. */
  function EffectiveLimit(limit: Option<int>): int {
    if limit.None? || limit.value == 0 then DEFAULT_LIMIT else limit.value
  }

  /** `GET /:orgId`: members only; a negative limit makes `limitToLast`
      throw, which the handler answers with 500. */
  method Read(db: Database, user: Principal, orgId: OrgId, limit: Option<int>) returns (res: Response)
    ensures !IsMember(db.orgs, orgId, user.uid) ==> res == Fail(403, NOT_A_MEMBER)
    ensures IsMember(db.orgs, orgId, user.uid) && EffectiveLimit(limit) < 0 ==> res == Fail(500, INTERNAL_ERROR)
    ensures IsMember(db.orgs, orgId, user.uid) && EffectiveLimit(limit) >= 0 ==>
              res == Reply(200, MessageList(LastN(Thread(MessagesOf(db.messages, orgId)), EffectiveLimit(limit))))
  {
    if !(orgId in db.orgs && user.uid in db.orgs[orgId].members) {
      return Fail(403, NOT_A_MEMBER);
    }
    var n := EffectiveLimit(limit);
    if n < 0 {
      return Fail(500, INTERNAL_ERROR);
    }
    var messages := Window(MessagesOf(db.messages, orgId), n);
    res := Reply(200, MessageList(messages));
  }

  /** The query `orderByChild('timestamp').limitToLast(n)` and the copy of
      its snapshot: the newest `n` messages of the thread, oldest first. */
  method Window(stored: map<MsgId, Message>, n: nat) returns (messages: seq<MessageRow>)
    ensures messages == LastN(Thread(stored), n)
  {
    var rows := StoredRows(stored);
    var snap := LastN(SortedThread(rows), n);
    messages := PushEach(snap);
  }

  /** `snap.forEach(child => messages.push({ id: child.key, ...child.val() }))`:
      the rows of the snapshot, in the snapshot's order. */
  method PushEach(snap: seq<MessageRow>) returns (messages: seq<MessageRow>)
    ensures messages == snap
  {
    messages := [];
    for i := 0 to |snap|
      invariant messages == snap[..i]
    {
      messages := messages + [snap[i]];
    }
    assert snap[..|snap|] == snap;
  }

  /** The query's read of the thread: one row per stored message, in key
      order; sorting them gives the thread. */
  method StoredRows(stored: map<MsgId, Message>) returns (rows: seq<MessageRow>)
    ensures rows == Collect(Ascending(stored.Keys), stored, AnyMessage, MessageRowOf)
    ensures SortedThread(rows) == Thread(stored)
  {
    var ks := SnapshotKeys(stored.Keys);
    KeysPresent(stored);
    rows := [];
    for i := 0 to |ks|
      invariant rows == Collect(ks[..i], stored, AnyMessage, MessageRowOf)
    {
      assert ks[..i + 1][..i] == ks[..i];
      assert ks[i] in ks;
      rows := rows + [MessageRowOf(ks[i], stored[ks[i]])];
    }
    assert ks[..|ks|] == ks;
  }
}
