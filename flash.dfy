/**
 * `req.flash(type, msg)`: flash messages kept in the session, a map from a
 * message type to the list of messages of that type. With a type and a
 * message it appends; with only a type it takes (returns and removes) that
 * type's messages; with neither it takes every message.
 *
 * A missing type or message is the empty string (JavaScript's `undefined`,
 * `null` and `''` are all falsy, which is all the function looks at).
 */
module Flash {
  import opened Wrappers

  type Store = map<string, seq<string>>

  /** What a call returns: the new length of the list pushed onto, one type's
      messages, or the whole store. */
  datatype FlashResult = Count(n: nat) | Messages(msgs: seq<string>) | AllMessages(byType: Store)

  datatype FlashError = SessionsRequired   // `Error('req.flash() requires sessions')`

  /** The result and the new store of one call, given the store before it
      (`None` when `session.flash` was not set yet). */
  function FlashStep(before: Option<Store>, msgType: string, msg: string): (out: (FlashResult, Store))
    ensures msgType != "" && msg != "" ==> out.0.Count? && msgType in out.1 && out.0.n == |out.1[msgType]|
    ensures msgType != "" && msg == "" ==> out.0.Messages? && msgType !in out.1
    ensures msgType == "" ==> out.0 == AllMessages(before.GetOr(map[])) && out.1 == map[]
  {
    var msgs := before.GetOr(map[]);
    if msgType != "" && msg != "" then
      var list := (if msgType in msgs then msgs[msgType] else []) + [msg];
      (Count(|list|), msgs[msgType := list])
    else if msgType != "" then
      (Messages(if msgType in msgs then msgs[msgType] else []), msgs - {msgType})
    else
      (AllMessages(msgs), map[])
  }

  class Session {
    var flash: Option<Store>

    constructor()
      ensures flash == None
    {
      flash := None;
    }
  }

  class Request {
    var session: Session?   // `null` when no session middleware ran

    constructor(session: Session?)
      ensures this.session == session
    {
      this.session := session;
    }

    /** `_flash(type, msg)` called on this request. */
    method Flash(msgType: string, msg: string) returns (r: Result<FlashResult, FlashError>)
      modifies session
      ensures session == null ==> r == Failure(SessionsRequired)
      ensures session != null ==>
        var out := FlashStep(old(session.flash), msgType, msg);
        r == Success(out.0) && session.flash == Some(out.1)
    {
      if session == null {
        return Failure(SessionsRequired);
      }
      var msgs := session.flash.GetOr(map[]);
      session.flash := Some(msgs);
      if msgType != "" && msg != "" {
        var list := if msgType in msgs then msgs[msgType] else [];
        list := list + [msg];
        msgs := msgs[msgType := list];
        session.flash := Some(msgs);
        return Success(Count(|list|));
      } else if msgType != "" {
        var taken := if msgType in msgs then msgs[msgType] else [];
        msgs := msgs - {msgType};
        session.flash := Some(msgs);
        return Success(Messages(taken));
      } else {
        session.flash := Some(map[]);
        return Success(AllMessages(msgs));
      }
    }
  }

  /** Pushing appends the message to the end of its type's list (creating the
      list if needed), returns the new length and leaves every other type alone. */
  lemma PushAppends(before: Option<Store>, msgType: string, msg: string)
    requires msgType != "" && msg != ""
    ensures var (res, after) := FlashStep(before, msgType, msg);
      var prev := before.GetOr(map[]);
      && after[msgType] == (if msgType in prev then prev[msgType] else []) + [msg]
      && res == Count(|after[msgType]|)
      && (forall t :: t != msgType ==> (t in after <==> t in prev) && (t in after ==> after[t] == prev[t]))
  {
  }

  /** Taking one type returns its list, or `[]` when there is none, removes the
      type and leaves every other type alone. */
  lemma TakeRemovesType(before: Option<Store>, msgType: string)
    requires msgType != ""
    ensures var (res, after) := FlashStep(before, msgType, "");
      var prev := before.GetOr(map[]);
      && res == Messages(if msgType in prev then prev[msgType] else [])
      && msgType !in after
      && (forall t :: t != msgType ==> (t in after <==> t in prev) && (t in after ==> after[t] == prev[t]))
  {
  }

  /** Taking the same type twice in a row gives `[]` the second time. */
  lemma TakeTwiceIsEmpty(before: Option<Store>, msgType: string)
    requires msgType != ""
    ensures var after := FlashStep(before, msgType, "").1;
      FlashStep(Some(after), msgType, "").0 == Messages([])
  {
  }

  /** Taking everything returns the store as it was and leaves it empty, so a
      following take of any type gives `[]`. */
  lemma TakeAllEmpties(before: Option<Store>, msgType: string)
    ensures var (res, after) := FlashStep(before, "", "");
      res == AllMessages(before.GetOr(map[])) && after == map[]
      && FlashStep(Some(after), msgType, "").0 == (if msgType == "" then AllMessages(map[]) else Messages([]))
  {
  }

  /** The store after pushing each message of `msgs` onto `msgType`, in order. */
  function PushAll(before: Option<Store>, msgType: string, msgs: seq<string>): (after: Store)
    requires msgType != "" && forall i :: 0 <= i < |msgs| ==> msgs[i] != ""
    decreases |msgs|
  {
    if msgs == [] then before.GetOr(map[])
    else FlashStep(Some(PushAll(before, msgType, msgs[..|msgs| - 1])), msgType, msgs[|msgs| - 1]).1
  }

  /** Messages pushed one after another come back, in the order they were
      pushed, after whatever the type already held. */
  lemma {:induction false} PushesThenTake(before: Option<Store>, msgType: string, msgs: seq<string>)
    requires msgType != "" && forall i :: 0 <= i < |msgs| ==> msgs[i] != ""
    ensures var prev := before.GetOr(map[]);
      var prior := if msgType in prev then prev[msgType] else [];
      FlashStep(Some(PushAll(before, msgType, msgs)), msgType, "").0 == Messages(prior + msgs)
    decreases |msgs|
  {
    var prev := before.GetOr(map[]);
    var prior := if msgType in prev then prev[msgType] else [];
    if msgs == [] {
      assert prior + msgs == prior;
    } else {
      var init := msgs[..|msgs| - 1];
      PushesThenTake(before, msgType, init);
      assert init + [msgs[|msgs| - 1]] == msgs;
      assert (prior + init) + [msgs[|msgs| - 1]] == prior + msgs;
    }
  }
}
