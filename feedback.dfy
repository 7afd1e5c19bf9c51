/**
 * Message feedback for the assistant's answers: `submitFeedback` validates a
 * rating and upserts one row per (user, message); `getFeedback` lists a
 * conversation's feedback as a map keyed by message id.
 */
module Feedback {
  import opened Wrappers
  import opened Tables

  const Ratings: seq<string> := ["helpful", "not_helpful"]

  const IssueTypes: seq<string> := ["inaccurate", "not_relevant", "too_generic", "missing_details", "other"]

  /** The arguments of `submitFeedback`; an absent optional argument is `None` (null). */
  datatype FeedbackRequest = FeedbackRequest(
    conversationId: string, messageId: string, rating: string, issueType: Option<string>,
    comment: Option<string>, messageContent: Option<string>, userQuery: Option<string>)

  /** `issueType && ...`: null and the empty string skip the issue-type check. */
  predicate IssueTypeGiven(issueType: Option<string>)
  {
    issueType.Some? && issueType.value != ""
  }

  /** The checks that need no database, in the source's order: the first failing message, or none. */
  function ValidateFeedback(userId: string, req: FeedbackRequest): (e: Option<string>)
    ensures e.None? <==>
      userId != "" && req.conversationId != "" && req.messageId != "" &&
      req.rating in Ratings && (!IssueTypeGiven(req.issueType) || req.issueType.value in IssueTypes)
    ensures userId == "" ==> e == Some("Unauthorized")
    ensures userId != "" && (req.conversationId == "" || req.messageId == "" || req.rating == "") ==>
      e == Some("Conversation ID, message ID, and rating are required")
    ensures userId != "" && req.conversationId != "" && req.messageId != "" && req.rating != "" && req.rating !in Ratings ==>
      e == Some("Invalid rating value")
    ensures (userId != "" && req.conversationId != "" && req.messageId != "" && req.rating in Ratings &&
             IssueTypeGiven(req.issueType) && req.issueType.value !in IssueTypes) ==>
      e == Some("Invalid issue type")
  {
    if userId == "" then Some("Unauthorized")
    else if req.conversationId == "" || req.messageId == "" || req.rating == "" then
      Some("Conversation ID, message ID, and rating are required")
    else if req.rating !in Ratings then Some("Invalid rating value")
    else if IssueTypeGiven(req.issueType) && req.issueType.value !in IssueTypes then Some("Invalid issue type")
    else None
  }

  /** The feedback rows of one user on one message. */
  function FeedbackFor(rows: seq<FeedbackRow>, userId: string, messageId: string): seq<FeedbackRow>
  {
    Where(rows, (f: FeedbackRow) => f.userId == userId && f.messageId == messageId)
  }

  /** At most one feedback row per (user, message). */
  ghost predicate OnePerUserMessage(rows: seq<FeedbackRow>)
  {
    forall userId, messageId :: |FeedbackFor(rows, userId, messageId)| <= 1
  }

  /** `.eq('id', conversationId).eq('user_id', userId).single()` */
  function OwnedConversation(conversations: seq<Conversation>, conversationId: string, userId: string): Option<Conversation>
  {
    Single(Where(conversations, (c: Conversation) => c.id == conversationId && c.userId == userId))
  }

  /** The update of an existing row: the five answer fields are rewritten, the keys are kept. */
  function Revised(row: FeedbackRow, req: FeedbackRequest): (r: FeedbackRow)
    ensures r.id == row.id && r.conversationId == row.conversationId
    ensures r.messageId == row.messageId && r.userId == row.userId
    ensures r.rating == req.rating && r.issueType == req.issueType && r.comment == req.comment
    ensures r.messageContent == req.messageContent && r.userQuery == req.userQuery
  {
    row.(rating := req.rating, issueType := req.issueType, comment := req.comment,
         messageContent := req.messageContent, userQuery := req.userQuery)
  }

  function NewFeedback(id: string, userId: string, req: FeedbackRequest): FeedbackRow
  {
    FeedbackRow(id, req.conversationId, req.messageId, userId, req.rating, req.issueType, req.comment,
                req.messageContent, req.userQuery)
  }

  /** The feedback table after a successful submit. */
  function Upserted(rows: seq<FeedbackRow>, userId: string, req: FeedbackRequest, newId: string): seq<FeedbackRow>
  {
    match Single(FeedbackFor(rows, userId, req.messageId))
    case Some(existing) =>
      UpdateWhere(rows, (f: FeedbackRow) => f.id == existing.id, (f: FeedbackRow) => Revised(f, req))
    case None => rows + [NewFeedback(newId, userId, req)]
  }

  /** `submitFeedback({...})`; the result is the `updated` flag. */
  method SubmitFeedback(db: Db, userId: string, req: FeedbackRequest, newId: string, writeOk: bool)
    returns (r: Result<bool>)
    modifies db`feedback
    ensures ValidateFeedback(userId, req).Some? ==> r == Err(ValidateFeedback(userId, req).value)
    ensures ValidateFeedback(userId, req).None? ==>
      if OwnedConversation(db.conversations, req.conversationId, userId).None? then r == Err("Conversation not found")
      else
        var existed := Single(FeedbackFor(old(db.feedback), userId, req.messageId)).Some?;
        r == if writeOk then Ok(existed)
             else Err(if existed then "Failed to update feedback" else "Failed to save feedback")
    ensures r.Err? ==> db.feedback == old(db.feedback)
    ensures r.Ok? ==> db.feedback == Upserted(old(db.feedback), userId, req, newId)
  {
    var invalid := ValidateFeedback(userId, req);
    if invalid.Some? {
      return Err(invalid.value);
    }
    var conversation := OwnedConversation(db.conversations, req.conversationId, userId);
    if conversation.None? {
      return Err("Conversation not found");
    }
    var existingFeedback := Single(FeedbackFor(db.feedback, userId, req.messageId));
    if existingFeedback.Some? {
      if !writeOk {
        return Err("Failed to update feedback");
      }
      db.feedback := UpdateWhere(db.feedback, (f: FeedbackRow) => f.id == existingFeedback.value.id,
                                 (f: FeedbackRow) => Revised(f, req));
      return Ok(true);
    }
    if !writeOk {
      return Err("Failed to save feedback");
    }
    db.feedback := db.feedback + [NewFeedback(newId, userId, req)];
    r := Ok(false);
  }

  /**
   * After a submit the (user, message) pair has exactly one row, and it
   * holds the submitted answer; the other pairs keep their row counts.
   */
  lemma {:induction false} SubmitKeepsOnePerUserMessage(rows: seq<FeedbackRow>, userId: string, req: FeedbackRequest, newId: string)
    requires OnePerUserMessage(rows)
    ensures var after := Upserted(rows, userId, req, newId);
      && OnePerUserMessage(after)
      && |FeedbackFor(after, userId, req.messageId)| == 1
      && var row := FeedbackFor(after, userId, req.messageId)[0];
         row.rating == req.rating && row.issueType == req.issueType && row.comment == req.comment &&
         row.messageContent == req.messageContent && row.userQuery == req.userQuery
  {
    var after := Upserted(rows, userId, req, newId);
    match Single(FeedbackFor(rows, userId, req.messageId))
    case Some(existing) =>
      forall u, m ensures FeedbackFor(after, u, m)
          == UpdateWhere(FeedbackFor(rows, u, m), (f: FeedbackRow) => f.id == existing.id, (f: FeedbackRow) => Revised(f, req)) {
        WhereOfUpdate(rows, (f: FeedbackRow) => f.id == existing.id, (f: FeedbackRow) => Revised(f, req),
                      (f: FeedbackRow) => f.userId == u && f.messageId == m);
      }
      forall u, m ensures |FeedbackFor(after, u, m)| <= 1 {
        assert |FeedbackFor(rows, u, m)| <= 1;
      }
      assert FeedbackFor(rows, userId, req.messageId) == [existing];
    case None =>
      var row := NewFeedback(newId, userId, req);
      forall u, m ensures |FeedbackFor(after, u, m)| <= 1 {
        WhereAppend(rows, row, (f: FeedbackRow) => f.userId == u && f.messageId == m);
        assert |FeedbackFor(rows, u, m)| <= 1;
      }
      WhereAppend(rows, row, (f: FeedbackRow) => f.userId == userId && f.messageId == req.messageId);
  }

  /** The fields `getFeedback` keeps per message. */
  datatype FeedbackEntry = FeedbackEntry(rating: string, issueType: Option<string>, comment: Option<string>)

  /** What `getFeedback` returns: an optional error and the map (empty on error). */
  datatype FeedbackListing = FeedbackListing(error: Option<string>, feedback: map<string, FeedbackEntry>)

  function EntryOf(row: FeedbackRow): FeedbackEntry
  {
    FeedbackEntry(row.rating, row.issueType, row.comment)
  }

  /** The map the `forEach` builds: each row in turn overwrites its message's entry. */
  function FeedbackMap(rows: seq<FeedbackRow>): map<string, FeedbackEntry>
    decreases |rows|
  {
    if rows == [] then map[]
    else
      var last := rows[|rows| - 1];
      FeedbackMap(rows[..|rows| - 1])[last.messageId := EntryOf(last)]
  }

  /** The map has an entry for exactly the message ids of the rows. */
  lemma {:induction false} FeedbackMapKeys(rows: seq<FeedbackRow>)
    ensures forall k :: k in FeedbackMap(rows) <==> exists i :: 0 <= i < |rows| && rows[i].messageId == k
    decreases |rows|
  {
    if rows != [] {
      var init := rows[..|rows| - 1];
      FeedbackMapKeys(init);
      forall k | exists i :: 0 <= i < |rows| && rows[i].messageId == k ensures k in FeedbackMap(rows) {
        var i :| 0 <= i < |rows| && rows[i].messageId == k;
        if i < |rows| - 1 {
          assert init[i].messageId == k;
        }
      }
      forall k | k in FeedbackMap(rows) ensures exists i :: 0 <= i < |rows| && rows[i].messageId == k {
        if k != rows[|rows| - 1].messageId {
          assert k in FeedbackMap(init);
          var i :| 0 <= i < |init| && init[i].messageId == k;
          assert rows[i].messageId == k;
        }
      }
    }
  }

  /** A later row overwrites an earlier one: each entry comes from the last row with that message id. */
  lemma {:induction false} FeedbackMapLastWins(rows: seq<FeedbackRow>, i: nat)
    requires i < |rows|
    requires forall j :: i < j < |rows| ==> rows[j].messageId != rows[i].messageId
    ensures rows[i].messageId in FeedbackMap(rows)
    ensures FeedbackMap(rows)[rows[i].messageId] == EntryOf(rows[i])
    decreases |rows|
  {
    if i < |rows| - 1 {
      var init := rows[..|rows| - 1];
      FeedbackMapLastWins(init, i);
    }
  }

  /** The rows `getFeedback` selects: one conversation, the caller's own. */
  function ConversationFeedback(rows: seq<FeedbackRow>, conversationId: string, userId: string): seq<FeedbackRow>
  {
    Where(rows, (f: FeedbackRow) => f.conversationId == conversationId && f.userId == userId)
  }

  /** `getFeedback(conversationId)` */
  method GetFeedback(db: Db, userId: string, conversationId: string, fetchOk: bool) returns (r: FeedbackListing)
    ensures userId == "" ==> r == FeedbackListing(Some("Unauthorized"), map[])
    ensures userId != "" && !fetchOk ==> r == FeedbackListing(Some("Failed to load feedback"), map[])
    ensures userId != "" && fetchOk ==>
      r == FeedbackListing(None, FeedbackMap(ConversationFeedback(db.feedback, conversationId, userId)))
  {
    if userId == "" {
      return FeedbackListing(Some("Unauthorized"), map[]);
    }
    if !fetchOk {
      return FeedbackListing(Some("Failed to load feedback"), map[]);
    }
    var feedbackList := ConversationFeedback(db.feedback, conversationId, userId);
    var feedbackMap: map<string, FeedbackEntry> := map[];
    for i := 0 to |feedbackList|
      invariant feedbackMap == FeedbackMap(feedbackList[..i])
    {
      var f := feedbackList[i];
      assert feedbackList[..i + 1][..i] == feedbackList[..i];
      feedbackMap := feedbackMap[f.messageId := FeedbackEntry(f.rating, f.issueType, f.comment)];
    }
    assert feedbackList[..|feedbackList|] == feedbackList;
    r := FeedbackListing(None, feedbackMap);
  }
}
