/**
 * icloud_triage.py: unread messages are listed over IMAP (Chilkat), each one
 * is fetched, parsed, classified, and a message labelled "🅾️ Action
 * Required" is appended to the log file and sent to Notion.
 *
 * The session is a `World`: what the server answers for each uid, what the
 * model replies to each prompt, how each Date header parses, and whether the
 * log file opens and Notion accepts the page for each uid.
 */
module ICloudTriage {
  import opened Common
  import opened PyStr
  import opened HtmlText
  import opened Classifier
  import opened Records

  const NoSubject: string := "No Subject"
  const UnknownSender: string := "Unknown Sender"
  const NoBodyContent: string := "No body content"

  /** A fetched Chilkat email, through its accessors (`""` where one returns nothing). */
  datatype ICloudEmail = ICloudEmail(
    subject: string, from: string, dateHeader: string, plainBody: string, htmlBody: string)

  /** The default body is already clean text. */
  lemma NoBodyContentIsClean()
    ensures IsCleanText(NoBodyContent)
  {
    var t := NoBodyContent;
    assert t[2] == ' ' && t[7] == ' ';
    assert forall k | 0 <= k < |t| && k != 2 && k != 7 :: !IsSpace(t[k]);
  }

  /**
   * The body step of `parse_email`: the plain-text body, else the HTML body
   * with its tags stripped, else "No body content"; then, unless it is empty,
   * whitespace runs become one space and the ends are trimmed.
   */
  function ParseBody(plain: string, html: string): string {
    var raw := if plain != [] then plain else if html != [] then StripTags(html) else NoBodyContent;
    if raw != [] then CleanSpace(raw) else raw
  }

  /**
   * The body is the first non-empty one of the plain body and the
   * tag-stripped HTML body, cleaned: clean text (no whitespace at its ends,
   * none but single spaces inside) that keeps every other character of the
   * body it came from, in order; "No body content" when the message has
   * neither body.
   */
  lemma ParseBodyClean(plain: string, html: string)
    ensures var body := ParseBody(plain, html);
      && IsCleanText(body)
      && (plain != [] ==> body == CleanSpace(plain) && NonSpace(body) == NonSpace(plain))
      && (plain == [] && html != [] ==>
            body == CleanSpace(StripTags(html)) && NonSpace(body) == NonSpace(StripTags(html)))
      && (plain == [] && html == [] ==> body == NoBodyContent)
  {
    NoBodyContentIsClean();
    CleanSpaceOfClean(NoBodyContent);
    if plain == [] && html != [] && StripTags(html) == [] {
      CleanSpaceOfClean([]);
    }
  }

  /**
   * "No body content" comes out of a message with neither body, or out of
   * one whose own text cleans to those three words.
   */
  lemma NoBodyContentOrigin(plain: string, html: string)
    requires ParseBody(plain, html) == NoBodyContent
    ensures (plain == [] && html == [])
      || (plain != [] && CleanSpace(plain) == NoBodyContent)
      || (plain == [] && html != [] && CleanSpace(StripTags(html)) == NoBodyContent)
  {
    ParseBodyClean(plain, html);
  }

  /** However the three words are spaced, a plain body of them cleans to "No body content". */
  lemma SpacedNoBodyContent(w1: string, w2: string)
    requires w1 != [] && AllSpace(w1) && w2 != [] && AllSpace(w2)
    ensures ParseBody("No" + w1 + "body" + w2 + "content", []) == NoBodyContent
  {
    NoBodyContentWords();
    CleanThreeWords("No", w1, "body", w2, "content");
  }

  lemma NoBodyContentWords()
    ensures IsWord("No") && IsWord("body") && IsWord("content")
    ensures "No" + " " + "body" + " " + "content" == NoBodyContent
  {
  }

  /** `parse_email`: the four fields, with a default for each missing one. */
  function ParseEmail(e: ICloudEmail, parseDate: string -> Option<DateTime>): (p: ParsedEmail)
    ensures e.subject != [] ==> p.subject == e.subject
    ensures e.subject == [] ==> p.subject == NoSubject
    ensures e.from != [] ==> p.sender == e.from
    ensures e.from == [] ==> p.sender == UnknownSender
    ensures p.date == DateOf(e.dateHeader, parseDate)
    ensures p.body == ParseBody(e.plainBody, e.htmlBody)
  {
    ParsedEmail(
      if e.subject != [] then e.subject else NoSubject,
      if e.from != [] then e.from else UnknownSender,
      DateOf(e.dateHeader, parseDate),
      ParseBody(e.plainBody, e.htmlBody))
  }

  type Uid = int

  /** What `imap.FetchSingle(uid, True)` gave: an email, `None`, or an exception on the way. */
  datatype FetchResult = Fetched(email: ICloudEmail) | NotFetched | Raised

  datatype World = World(
    connects: bool,                        // connect_icloud: connect, login and select all succeed
    search: Option<seq<Uid>>,              // imap.Search("UNSEEN", True): the message set, or None
    fetch: Uid -> FetchResult,
    ask: string -> Reply,                  // ask_ollama
    parseDate: string -> Option<DateTime>, // dateutil.parser.parse, None when it raises
    logOpens: Uid -> bool,                 // open("action_emails.txt", "a") succeeds
    notionAccepts: Uid -> bool)            // new_page_to_db does not raise

  /** `fetch_unread_emails`: the ids of the message set, by index, or none without a set. */
  method FetchUnreadEmails(search: Option<seq<Uid>>) returns (uids: seq<Uid>)
    ensures search.None? ==> uids == []
    ensures search.Some? ==> uids == search.value
  {
    if search.None? {
      return [];
    }
    var messageSet := search.value;
    uids := [];
    for i := 0 to |messageSet|
      invariant uids == messageSet[..i]
    {
      uids := uids + [messageSet[i]];
    }
  }

  /** The label `triage_emails` computes for a parsed message. */
  function LabelOf(w: World, p: ParsedEmail): string {
    ClassifyICloud(p.subject, p.body, w.ask)
  }

  /** One pass of the loop body of `triage_emails`, for one uid. */
  function Step(w: World, uid: Uid): Effects {
    match w.fetch(uid)
    case Fetched(e) =>
      var p := ParseEmail(e, w.parseDate);
      var tag := LabelOf(w, p);
      if tag == ActionRequired && w.logOpens(uid) then
        Effects(LogBlock(p, tag), if w.notionAccepts(uid) then [NotionPageFor(p)] else [])
      else
        NoEffects
    case NotFetched => NoEffects
    case Raised => NoEffects
  }

  /** The loop of `triage_emails` over `uids`, in order. */
  function Run(w: World, uids: seq<Uid>): Effects
    decreases |uids|
  {
    if uids == [] then NoEffects
    else Then(Run(w, uids[..|uids| - 1]), Step(w, uids[|uids| - 1]))
  }

  /**
   * What one uid leaves behind: a log block exactly when the message was
   * fetched, is labelled "🅾️ Action Required" and the log file opened; a
   * Notion page exactly when, in addition, Notion accepted it. A log file that
   * does not open costs the Notion page too.
   */
  lemma StepRouting(w: World, uid: Uid)
    ensures var eff := Step(w, uid);
      && (eff.log == [] || |eff.log| == 6)
      && (eff.log != [] <==>
            w.fetch(uid).Fetched? && LabelOf(w, ParseEmail(w.fetch(uid).email, w.parseDate)) == ActionRequired
            && w.logOpens(uid))
      && (eff.pages != [] <==> eff.log != [] && w.notionAccepts(uid))
      && |eff.pages| <= 1
  {
  }

  /** A routed message writes its block and its page from the same parsed fields. */
  lemma StepContents(w: World, uid: Uid)
    requires w.fetch(uid).Fetched?
    ensures var p := ParseEmail(w.fetch(uid).email, w.parseDate);
      var eff := Step(w, uid);
      && (eff.log != [] ==> eff.log == LogBlock(p, ActionRequired))
      && (eff.pages != [] ==> eff.pages == [NotionPageFor(p)])
  {
  }

  /** The run over `a + b` is the run over `a` followed by the run over `b`. */
  lemma {:induction false} RunAppend(w: World, a: seq<Uid>, b: seq<Uid>)
    ensures Run(w, a + b) == Then(Run(w, a), Run(w, b))
    decreases |b|
  {
    if b == [] {
      assert a + b == a;
    } else {
      var b' := b[..|b| - 1];
      assert (a + b)[..|a + b| - 1] == a + b';
      assert (a + b)[|a + b| - 1] == b[|b| - 1];
      RunAppend(w, a, b');
      ThenAssociative(Run(w, a), Run(w, b'), Step(w, b[|b| - 1]));
    }
  }

  lemma RunSingle(w: World, uid: Uid)
    ensures Run(w, [uid]) == Step(w, uid)
  {
    assert [uid][..0] == [];
  }

  lemma StepSkipped(w: World, uid: Uid)
    requires !w.fetch(uid).Fetched?
    ensures Step(w, uid) == NoEffects
  {
  }

  /** A uid whose fetch fails is skipped, and only it: the others run as if it were absent. */
  lemma FailedFetchSkipsOnlyIt(w: World, a: seq<Uid>, uid: Uid, b: seq<Uid>)
    requires !w.fetch(uid).Fetched?
    ensures Run(w, a + [uid] + b) == Run(w, a + b)
  {
    RunAppend(w, a + [uid], b);
    RunAppend(w, a, [uid]);
    RunSingle(w, uid);
    StepSkipped(w, uid);
    ThenNone(Run(w, a));
    RunAppend(w, a, b);
  }

  /** How many uids of the run logged a block. */
  function Logged(w: World, uids: seq<Uid>): nat
    decreases |uids|
  {
    if uids == [] then 0
    else Logged(w, uids[..|uids| - 1]) + (if Step(w, uids[|uids| - 1]).log != [] then 1 else 0)
  }

  /** The log holds one six-write block per logged uid, and there is a block behind every Notion page. */
  lemma {:induction false} RunBlocks(w: World, uids: seq<Uid>)
    ensures |Run(w, uids).log| == 6 * Logged(w, uids)
    ensures |Run(w, uids).pages| <= Logged(w, uids)
    decreases |uids|
  {
    if uids != [] {
      var last := uids[|uids| - 1];
      RunBlocks(w, uids[..|uids| - 1]);
      StepRouting(w, last);
    }
  }

  /** The body of the `for uid in email_uids` loop: what one uid adds to the log and to Notion. */
  method HandleUid(w: World, uid: Uid, box: Outbox)
    modifies box
    ensures box.State() == Then(old(box.State()), Step(w, uid))
  {
    match w.fetch(uid) {
      case Fetched(e) =>
        var p := ParseEmail(e, w.parseDate);
        var tag := ClassifyICloud(p.subject, p.body, w.ask);
        if tag == ActionRequired && w.logOpens(uid) {
          box.Append(LogBlock(p, tag));
          if w.notionAccepts(uid) {
            box.CreatePage(NotionPageFor(p));
          }
        }
      case NotFetched =>
      case Raised =>
    }
  }

  /** The run over the first `i + 1` uids is the run over the first `i`, then uid `i`. */
  lemma RunExtend(w: World, uids: seq<Uid>, i: nat)
    requires i < |uids|
    ensures Run(w, uids[..i + 1]) == Then(Run(w, uids[..i]), Step(w, uids[i]))
  {
    assert uids[..i + 1][..i] == uids[..i];
  }

  /** The `for uid in email_uids` loop. */
  method HandleAll(w: World, uids: seq<Uid>, box: Outbox)
    modifies box
    ensures box.State() == Then(old(box.State()), Run(w, uids))
  {
    ghost var start := box.State();
    ghost var done := NoEffects;
    ThenNone(start);
    for i := 0 to |uids|
      invariant done == Run(w, uids[..i])
      invariant box.State() == Then(start, done)
    {
      RunExtend(w, uids, i);
      ThenAssociative(start, done, Step(w, uids[i]));
      HandleUid(w, uids[i], box);
      done := Then(done, Step(w, uids[i]));
    }
    assert uids[..|uids|] == uids;
  }

  /**
   * `triage_emails`: returns whether `imap.Disconnect()` was called, which
   * happens exactly when the connection was made, with or without unread mail.
   */
  method TriageEmails(w: World, box: Outbox) returns (disconnected: bool)
    modifies box
    ensures disconnected == w.connects
    ensures w.connects ==> box.State() == Then(old(box.State()), Run(w, w.search.GetOr([])))
    ensures !w.connects ==> box.log == old(box.log) && box.pages == old(box.pages)
  {
    if !w.connects {
      return false;
    }
    var uids := FetchUnreadEmails(w.search);
    if uids == [] {
      ThenNone(box.State());
      return true;
    }
    HandleAll(w, uids, box);
    return true;
  }
}
