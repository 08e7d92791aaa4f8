/**
 The chat transcript and the role/content message list the handler builds
 from it (lines 36-42 of src/chat_app/app.py).
 */
module Messages {
  import opened Wrappers

  datatype Role = User | Assistant

  /** One `{"role": ..., "content": ...}` entry of a chat-completions request. */
  datatype Message = Message(role: Role, content: string)

  /** One `(user_msg, assistant_msg)` pair of the transcript. The reply is
      absent (`None`) when the endpoint answered with no content. */
  datatype Turn = Turn(user: string, reply: Option<string>)

  /** Python truthiness of the reply: `if assistant_msg:` fails for `None` and for "". */
  predicate HasReply(t: Turn) {
    t.reply.Some? && t.reply.value != ""
  }

  /** The entries one pair contributes: its user entry, then its assistant
      entry only when the reply is truthy. */
  function TurnMessages(t: Turn): (ms: seq<Message>)
  {
    if HasReply(t) then [Message(User, t.user), Message(Assistant, t.reply.value)]
    else [Message(User, t.user)]
  }

  /** Number of pairs whose reply is truthy. */
  function CountReplies(h: seq<Turn>): nat
  {
    if |h| == 0 then 0
    else CountReplies(h[..|h| - 1]) + (if HasReply(h[|h| - 1]) then 1 else 0)
  }

  /** Whether `ms` could be sent as conversation context: no assistant entry is
      empty, and every assistant entry directly follows a user entry. */
  predicate WellFormed(ms: seq<Message>) {
    forall i :: 0 <= i < |ms| ==> WellPlaced(ms, i)
  }

  /** Entry `i` is a user entry, or a non-empty assistant entry right after a
      user entry. */
  predicate WellPlaced(ms: seq<Message>, i: nat)
    requires i < |ms|
  {
    ms[i].role == Assistant ==> ms[i].content != "" && 0 < i && ms[i - 1].role == User
  }

  lemma WellFormedConcat(a: seq<Message>, b: seq<Message>)
    requires WellFormed(a) && WellFormed(b)
    ensures WellFormed(a + b)
  {
    var ab := a + b;
    forall i | 0 <= i < |ab|
      ensures WellPlaced(ab, i)
    {
      if i < |a| {
        assert WellPlaced(a, i);
      } else {
        assert WellPlaced(b, i - |a|);
        if i > |a| {
          assert ab[i - 1] == b[i - |a| - 1];
        }
      }
    }
  }

  /** The history part of the message list, in transcript order (the `for`
      loop of lines 37-41). */
  function Flatten(h: seq<Turn>): (ms: seq<Message>)
    ensures |ms| == |h| + CountReplies(h)
    ensures WellFormed(ms)
  {
    if |h| == 0 then []
    else
      var ms := Flatten(h[..|h| - 1]) + TurnMessages(h[|h| - 1]);
      assert WellPlaced(TurnMessages(h[|h| - 1]), 0);
      WellFormedConcat(Flatten(h[..|h| - 1]), TurnMessages(h[|h| - 1]));
      ms
  }

  /** The whole message list: the flattened history with the new user
      message last (line 42). */
  function MessagesFor(h: seq<Turn>, message: string): (ms: seq<Message>)
    ensures |ms| == |h| + CountReplies(h) + 1
    ensures ms[|ms| - 1] == Message(User, message)
    ensures ms[..|ms| - 1] == Flatten(h)
    ensures WellFormed(ms)
  {
    var last := [Message(User, message)];
    assert WellPlaced(last, 0);
    WellFormedConcat(Flatten(h), last);
    Flatten(h) + last
  }

  /** The loop of lines 37-42 as written: append per pair, then the new message. */
  method BuildMessages(history: seq<Turn>, message: string) returns (messages: seq<Message>)
    ensures messages == MessagesFor(history, message)
  {
    messages := [];
    var i := 0;
    while i < |history|
      invariant 0 <= i <= |history|
      invariant messages == Flatten(history[..i])
    {
      var t := history[i];
      messages := messages + [Message(User, t.user)];
      if t.reply.Some? && t.reply.value != "" {
        messages := messages + [Message(Assistant, t.reply.value)];
      }
      assert history[..i + 1][..i] == history[..i];
      i := i + 1;
    }
    assert history[..i] == history;
    messages := messages + [Message(User, message)];
  }

  /** Flattening distributes over concatenation of transcripts. */
  lemma {:induction false} FlattenAppend(a: seq<Turn>, b: seq<Turn>)
    ensures Flatten(a + b) == Flatten(a) + Flatten(b)
    decreases |b|
  {
    if |b| == 0 {
      assert a + b == a;
    } else {
      var b' := b[..|b| - 1];
      assert (a + b)[..|a + b| - 1] == a + b';
      assert b[|b| - 1] == (a + b)[|a + b| - 1];
      FlattenAppend(a, b');
    }
  }

  /** Flattening a transcript with a leading pair. */
  lemma FlattenCons(t: Turn, rest: seq<Turn>)
    ensures Flatten([t] + rest) == TurnMessages(t) + Flatten(rest)
  {
    FlattenAppend([t], rest);
    assert [t][..0] == [];
  }

  /** The message list around pair `k`: what the earlier pairs give, then
      pair `k`'s own entries, then what the later pairs give. */
  lemma FlattenSplit(h: seq<Turn>, k: nat)
    requires k < |h|
    ensures Flatten(h) == Flatten(h[..k]) + (TurnMessages(h[k]) + Flatten(h[k + 1..]))
  {
    SplitAt(h, k);
    FlattenAppend(h[..k], [h[k]] + h[k + 1..]);
    FlattenCons(h[k], h[k + 1..]);
  }

  lemma SplitAt<T>(s: seq<T>, k: nat)
    requires k < |s|
    ensures s == s[..k] + ([s[k]] + s[k + 1..])
  {
  }

  /** Where pair `k` lands in the message list: its user entry sits after the
      `k` earlier user entries and their truthy replies, and its reply (when
      truthy) follows immediately. */
  lemma FlattenLayout(h: seq<Turn>, k: nat)
    requires k < |h|
    ensures var ms, p := Flatten(h), k + CountReplies(h[..k]);
      && p < |ms|
      && ms[p] == Message(User, h[k].user)
      && (HasReply(h[k]) ==> p + 1 < |ms| && ms[p + 1] == Message(Assistant, h[k].reply.value))
      && (!HasReply(h[k]) ==> p + 1 == |ms| || ms[p + 1].role == User)
  {
    FlattenSplit(h, k);
    var after := Flatten(h[k + 1..]);
    Around(Flatten(h[..k]), TurnMessages(h[k]), after);
    if |after| > 0 {
      assert WellPlaced(after, 0);
    }
  }

  /** Indexing just past `a` in `a + (b + c)`. */
  lemma Around<T>(a: seq<T>, b: seq<T>, c: seq<T>)
    requires |b| > 0
    ensures var s := a + (b + c);
      && s[|a|] == b[0]
      && (|b| > 1 ==> s[|a| + 1] == b[1])
      && (|b| == 1 && |c| > 0 ==> s[|a| + 1] == c[0])
      && (|b| == 1 && |c| == 0 ==> |s| == |a| + 1)
    ensures (a + b) + c == a + (b + c)
  {
  }

  /** A pair with its falsy reply made `None`: the form in which the message
      list records it. */
  function Normal(t: Turn): Turn {
    if HasReply(t) then t else Turn(t.user, None)
  }

  function Normalize(h: seq<Turn>): seq<Turn>
  {
    seq(|h|, i requires 0 <= i < |h| => Normal(h[i]))
  }

  /** Reads a message list back into a transcript: a user entry followed by an
      assistant entry is one answered pair, a user entry on its own is a pair
      with no reply; anything else is malformed. */
  function Regroup(ms: seq<Message>): (r: Option<seq<Turn>>)
    decreases |ms|
  {
    if |ms| == 0 then Some([])
    else if ms[0].role != User then None
    else if |ms| >= 2 && ms[1].role == Assistant then
      if ms[1].content == "" then None
      else match Regroup(ms[2..])
        case None => None
        case Some(rest) => Some([Turn(ms[0].content, Some(ms[1].content))] + rest)
    else
      match Regroup(ms[1..])
      case None => None
      case Some(rest) => Some([Turn(ms[0].content, None)] + rest)
  }

  /** Reading back one pair's entries in front of a list that starts with a
      user entry yields that pair, normalised, in front. */
  lemma RegroupCons(t: Turn, ms: seq<Message>, r: seq<Turn>)
    requires ms == [] || ms[0].role.User?
    requires Regroup(ms) == Some(r)
    ensures Regroup(TurnMessages(t) + ms) == Some([Normal(t)] + r)
  {
    if HasReply(t) {
      RegroupAnswered(t.user, t.reply.value, ms);
    } else {
      RegroupUnanswered(t.user, ms);
    }
  }

  lemma RegroupAnswered(u: string, a: string, ms: seq<Message>)
    requires a != ""
    ensures Regroup([Message(User, u), Message(Assistant, a)] + ms)
      == match Regroup(ms)
         case None => None
         case Some(rest) => Some([Turn(u, Some(a))] + rest)
  {
    var x := [Message(User, u), Message(Assistant, a)] + ms;
    assert x[2..] == ms;
  }

  lemma RegroupUnanswered(u: string, ms: seq<Message>)
    requires ms == [] || ms[0].role.User?
    ensures Regroup([Message(User, u)] + ms)
      == match Regroup(ms)
         case None => None
         case Some(rest) => Some([Turn(u, None)] + rest)
  {
    var x := [Message(User, u)] + ms;
    assert x[1..] == ms;
  }

  lemma NormalizeCons(t: Turn, rest: seq<Turn>)
    ensures Normalize([t] + rest) == [Normal(t)] + Normalize(rest)
  {
    var h := [t] + rest;
    var a, b := Normalize(h), [Normal(t)] + Normalize(rest);
    forall i | 0 <= i < |a|
      ensures a[i] == b[i]
    {
      if i > 0 {
        assert h[i] == rest[i - 1];
      }
    }
  }

  /** The message list keeps every user text and every truthy reply, in
      order: reading it back gives the transcript with only falsy replies
      forgotten. */
  lemma {:induction false} RegroupFlatten(h: seq<Turn>)
    ensures Regroup(Flatten(h)) == Some(Normalize(h))
    decreases |h|
  {
    if |h| > 0 {
      var t, rest := h[0], h[1..];
      assert h == [t] + rest;
      FlattenCons(t, rest);
      RegroupFlatten(rest);
      var tail := Flatten(rest);
      if |tail| > 0 {
        assert WellPlaced(tail, 0);
      }
      RegroupCons(t, tail, Normalize(rest));
      NormalizeCons(t, rest);
    } else {
      assert Normalize(h) == [];
    }
  }

  /** Conversely, any transcript a message list reads back as flattens to
      exactly that list, and holds no falsy reply. */
  lemma {:induction false} FlattenRegroup(ms: seq<Message>, h: seq<Turn>)
    requires Regroup(ms) == Some(h)
    ensures Flatten(h) == ms
    ensures Normalize(h) == h
    decreases |ms|
  {
    if |ms| > 0 {
      var k := if |ms| >= 2 && ms[1].role == Assistant then 2 else 1;
      var r := Regroup(ms[k..]);
      var t := if k == 2 then Turn(ms[0].content, Some(ms[1].content)) else Turn(ms[0].content, None);
      assert r.Some? && h == [t] + r.value;
      FlattenRegroup(ms[k..], r.value);
      FlattenCons(t, r.value);
      assert TurnMessages(t) == ms[..k];
      assert ms == ms[..k] + ms[k..];
      NormalizeCons(t, r.value);
    }
  }

  /** Two transcripts produce the same message list exactly when they agree
      up to falsy replies. */
  lemma FlattenSameIffNormalSame(h1: seq<Turn>, h2: seq<Turn>)
    ensures Flatten(h1) == Flatten(h2) <==> Normalize(h1) == Normalize(h2)
  {
    RegroupFlatten(h1);
    RegroupFlatten(h2);
    if Normalize(h1) == Normalize(h2) {
      FlattenRegroup(Flatten(h1), Normalize(h1));
      FlattenRegroup(Flatten(h2), Normalize(h2));
    }
  }
}
