/**
 * gmail_triage.py: the same triage over `imaplib`. Ids come from splitting
 * the search response, each message is parsed from its MIME structure
 * (with no whitespace clean-up of the body), the model reply is only
 * stripped, and a failure to write the log file does not stop the Notion
 * write. Exceptions that no `try` catches end the whole run.
 */
module GmailTriage {
  import opened Common
  import opened PyStr
  import opened Classifier
  import opened Records

  type Bytes = seq<byte>

  /** The whitespace of `bytes.split()`: space, `\t`, `\n`, `\v`, `\f`, `\r`. */
  predicate IsAsciiSpace(b: byte) {
    b == 32 || 9 <= b <= 13
  }

  /** A word of a split: non-empty, and no whitespace in it. */
  predicate IsWord(t: Bytes) {
    t != [] && forall k | 0 <= k < |t| :: !IsAsciiSpace(t[k])
  }

  /** The length of the run of non-whitespace bytes that starts `s`. */
  function WordLength(s: Bytes): (n: nat)
    ensures n <= |s|
    ensures forall k | 0 <= k < n :: !IsAsciiSpace(s[k])
    ensures n == |s| || IsAsciiSpace(s[n])
  {
    if s == [] || IsAsciiSpace(s[0]) then 0 else 1 + WordLength(s[1..])
  }

  /** `s.split()` on bytes: the maximal runs of non-whitespace, in order. */
  function SplitWords(s: Bytes): (words: seq<Bytes>)
    ensures forall i | 0 <= i < |words| :: IsWord(words[i])
    decreases |s|
  {
    if s == [] then []
    else if IsAsciiSpace(s[0]) then SplitWords(s[1..])
    else
      var n := WordLength(s);
      assert IsWord(s[..n]);
      [s[..n]] + SplitWords(s[n..])
  }

  /** The words joined by single spaces, as an IMAP search response lists them. */
  function JoinWords(words: seq<Bytes>): Bytes {
    if words == [] then []
    else if |words| == 1 then words[0]
    else words[0] + [32 as byte] + JoinWords(words[1..])
  }

  lemma {:induction false} WordLengthOfWord(t: Bytes, rest: Bytes)
    requires IsWord(t) && (rest == [] || IsAsciiSpace(rest[0]))
    ensures WordLength(t + rest) == |t|
    decreases |t|
  {
    var s := t + rest;
    assert s[0] == t[0];
    assert s[1..] == t[1..] + rest;
    if |t| > 1 {
      WordLengthOfWord(t[1..], rest);
    } else {
      assert t[1..] + rest == rest;
    }
  }

  /** A word followed by whitespace (or nothing) is split off whole. */
  lemma SplitWordsAtWord(t: Bytes, rest: Bytes)
    requires IsWord(t) && (rest == [] || IsAsciiSpace(rest[0]))
    ensures SplitWords(t + rest) == [t] + SplitWords(rest)
  {
    var s := t + rest;
    WordLengthOfWord(t, rest);
    assert s[0] == t[0];
    assert s[..|t|] == t && s[|t|..] == rest;
  }

  /** Splitting undoes joining: the ids come back as they were, in order. */
  lemma {:induction false} SplitJoin(words: seq<Bytes>)
    requires forall i | 0 <= i < |words| :: IsWord(words[i])
    ensures SplitWords(JoinWords(words)) == words
    decreases |words|
  {
    if |words| == 1 {
      var t := words[0];
      SplitWordsAtWord(t, []);
      assert t + [] == t;
    } else if |words| > 1 {
      var t := words[0];
      var tail := JoinWords(words[1..]);
      assert JoinWords(words) == t + ([32 as byte] + tail);
      SplitWordsAfterWord(t, tail);
      SplitJoin(words[1..]);
      assert words == [t] + words[1..];
    }
  }

  /** A word and one space in front of `tail` split off as that word. */
  lemma SplitWordsAfterWord(t: Bytes, tail: Bytes)
    requires IsWord(t)
    ensures SplitWords(t + ([32 as byte] + tail)) == [t] + SplitWords(tail)
  {
    var rest := [32 as byte] + tail;
    SplitWordsAtWord(t, rest);
    assert rest[1..] == tail;
  }

  /**
   * `fetch_unread_emails`: `messages[0].split()`, or `None` when that raises.
   * `imaplib` never returns an empty list: `[None]` (no untagged SEARCH
   * response, so `None.split()` raises `AttributeError`) and a search that
   * raises are both folded into `messages == []`, which ends the run the
   * same way, with nothing written.
   */
  function FetchUnreadEmails(messages: seq<Bytes>): (ids: Option<seq<Bytes>>)
    ensures ids.None? <==> messages == []
    ensures ids.Some? ==> forall i | 0 <= i < |ids.value| :: IsWord(ids.value[i])
  {
    if messages == [] then None else Some(SplitWords(messages[0]))
  }

  /**
   * The first piece of `decode_header(...)`: a `str`, or `bytes` with its
   * declared charset; `HeaderRaises` when `decode_header` itself raises
   * (a malformed encoded word).
   */
  datatype HeaderChunk =
    | TextChunk(text: string)
    | BytesChunk(raw: Bytes, charset: Option<string>)
    | HeaderRaises

  /** `part.get_payload(decode=True)` of one MIME part: bytes, something else, or an exception. */
  datatype PartPayload = PartBytes(raw: Bytes) | PartNotBytes | PartRaises

  datatype Part = Part(contentType: string, disposition: Option<string>, payload: PartPayload)

  /**
   * `msg.get_payload(decode=True)` of a message that is not multipart: bytes,
   * a `str`, another object shown as `str(payload)`, or an exception, after
   * which `retry` is `str()` of the second call (`None` when it raises too).
   */
  datatype SinglePayload =
    | SingleBytes(raw: Bytes)
    | SingleText(text: string)
    | SingleOther(shown: string)
    | SingleRaises(retry: Option<string>)

  /**
   * A message as `email.message_from_bytes` parses it. `subject` is the first
   * `decode_header` piece of the Subject header, `None` without one (the
   * default "No Subject" has no encoded words, so it comes back as itself);
   * `parts` is `msg.walk()` in order.
   */
  datatype GmailMessage = GmailMessage(
    subject: Option<HeaderChunk>, from: Option<string>, date: Option<string>,
    multipart: bool, parts: seq<Part>, single: SinglePayload)

  /** Decoders the script calls: `bytes.decode(charset, errors='ignore')`, `None` for an unknown charset, and `bytes.decode(errors='ignore')`. */
  datatype Decoders = Decoders(decodeAs: (Bytes, string) -> Option<string>, utf8: Bytes -> string)

  const NoSubject: string := "No Subject"
  const UnknownSender: string := "Unknown Sender"

  /** The subject, `None` when `decode_header` raises or an unknown charset makes `decode` raise. */
  function SubjectOf(chunk: Option<HeaderChunk>, dec: Decoders): Option<string> {
    match chunk
    case None => Some(NoSubject)
    case Some(TextChunk(t)) => Some(t)
    case Some(BytesChunk(raw, cs)) =>
      dec.decodeAs(raw, if cs.Some? && cs.value != [] then cs.value else "utf-8")
    case Some(HeaderRaises) => None
  }

  /** `str(part.get('Content-Disposition'))`: `"None"` for a part without the header. */
  function DispositionText(d: Option<string>): string {
    d.GetOr("None")
  }

  /** The part the loop takes: `text/plain`, not an attachment, with a bytes payload. */
  predicate Qualifies(part: Part) {
    && part.contentType == "text/plain"
    && !Contains(DispositionText(part.disposition), "attachment")
    && part.payload.PartBytes?
  }

  /** The index of the first part that qualifies. */
  function FirstPlain(parts: seq<Part>): (k: Option<nat>)
    ensures k.Some? ==> k.value < |parts| && Qualifies(parts[k.value])
    ensures k.Some? ==> forall j | 0 <= j < k.value :: !Qualifies(parts[j])
    ensures k.None? ==> forall j | 0 <= j < |parts| :: !Qualifies(parts[j])
  {
    if parts == [] then None
    else if Qualifies(parts[0]) then Some(0)
    else match FirstPlain(parts[1..])
      case Some(k) => Some(k + 1)
      case None => None
  }

  /** The multipart body: the first qualifying part decoded, or `""` when none qualifies. */
  function PlainBody(parts: seq<Part>, dec: Decoders): string {
    match FirstPlain(parts)
    case Some(k) => dec.utf8(parts[k].payload.raw)
    case None => ""
  }

  /**
   * The `for part in msg.walk()` loop: takes the first part that qualifies
   * and `break`s; a part whose payload is not bytes or raises is passed over.
   */
  method SelectPlainBody(parts: seq<Part>, dec: Decoders) returns (body: string)
    ensures FirstPlain(parts).Some? ==> body == dec.utf8(parts[FirstPlain(parts).value].payload.raw)
    ensures FirstPlain(parts).None? ==> body == ""
  {
    body := "";
    var i := 0;
    while i < |parts|
      invariant 0 <= i <= |parts|
      invariant forall j | 0 <= j < i :: !Qualifies(parts[j])
      invariant body == ""
    {
      var part := parts[i];
      var cdispo := DispositionText(part.disposition);
      if part.contentType == "text/plain" && !Contains(cdispo, "attachment") {
        match part.payload {
          case PartBytes(raw) =>
            body := dec.utf8(raw);
            FirstPlainAt(parts, i);
            return;
          case PartNotBytes =>
          case PartRaises =>
        }
      }
      i := i + 1;
    }
  }

  lemma {:induction false} FirstPlainAt(parts: seq<Part>, i: nat)
    requires i < |parts| && Qualifies(parts[i])
    requires forall j | 0 <= j < i :: !Qualifies(parts[j])
    ensures FirstPlain(parts) == Some(i)
    decreases i
  {
    if i > 0 {
      FirstPlainAt(parts[1..], i - 1);
    }
  }

  /** The body of a message that is not multipart; `None` when the retried call raises. */
  function SingleBody(single: SinglePayload, dec: Decoders): Option<string> {
    match single
    case SingleBytes(raw) => Some(dec.utf8(raw))
    case SingleText(t) => Some(t)
    case SingleOther(shown) => Some(shown)
    case SingleRaises(retry) => retry
  }

  /** `parse_email`, or `None` when it raises. */
  function Parse(m: GmailMessage, dec: Decoders, parseDate: string -> Option<DateTime>): Option<ParsedEmail> {
    match SubjectOf(m.subject, dec)
    case None => None
    case Some(subject) =>
      var date := DateOf(m.date.GetOr(""), parseDate);
      var body := if m.multipart then Some(PlainBody(m.parts, dec)) else SingleBody(m.single, dec);
      match body
      case None => None
      case Some(b) => Some(ParsedEmail(subject, m.from.GetOr(UnknownSender), date, b))
  }

  /** `parse_email` as the script runs it, with the part loop. */
  method ParseEmail(m: GmailMessage, dec: Decoders, parseDate: string -> Option<DateTime>)
    returns (p: Option<ParsedEmail>)
    ensures p == Parse(m, dec, parseDate)
  {
    var subject := SubjectOf(m.subject, dec);
    if subject.None? {
      return None;
    }
    var date := DateOf(m.date.GetOr(""), parseDate);
    var body: string;
    if m.multipart {
      body := SelectPlainBody(m.parts, dec);
    } else {
      var single := SingleBody(m.single, dec);
      if single.None? {
        return None;
      }
      body := single.value;
    }
    return Some(ParsedEmail(subject.value, m.from.GetOr(UnknownSender), date, body));
  }

  /**
   * The defaults: "No Subject" without a Subject header, "Unknown Sender"
   * without a From header (an empty one stays empty), "Unknown Date" for an
   * absent, empty or unparseable Date header; the header texts otherwise,
   * and a bytes subject decoded with its declared charset, UTF-8 when it
   * declares none.
   */
  lemma ParseDefaults(m: GmailMessage, dec: Decoders, parseDate: string -> Option<DateTime>)
    requires Parse(m, dec, parseDate).Some?
    ensures var p := Parse(m, dec, parseDate).value;
      && (m.subject.None? ==> p.subject == NoSubject)
      && (m.subject.Some? && m.subject.value.TextChunk? ==> p.subject == m.subject.value.text)
      && (m.subject.Some? && m.subject.value.BytesChunk? ==>
            var cs := m.subject.value.charset;
            Some(p.subject) == dec.decodeAs(m.subject.value.raw, if cs.Some? && cs.value != [] then cs.value else "utf-8"))
      && (m.from.None? ==> p.sender == UnknownSender)
      && (m.from.Some? ==> p.sender == m.from.value)
      && (m.date.None? || m.date.value == [] ==> p.date == UnknownDate)
      && (m.date.Some? && m.date.value != [] && parseDate(m.date.value).None? ==> p.date == UnknownDate)
      && (m.date.Some? && m.date.value != [] && parseDate(m.date.value).Some? ==>
            p.date == Received(parseDate(m.date.value).value))
  {
  }

  /**
   * The body is taken as decoded, with no whitespace clean-up: the first
   * qualifying part, `""` when none qualifies, and the payload itself for a
   * message that is not multipart.
   */
  lemma ParseBodyVerbatim(m: GmailMessage, dec: Decoders, parseDate: string -> Option<DateTime>)
    requires Parse(m, dec, parseDate).Some?
    ensures var body := Parse(m, dec, parseDate).value.body;
      && (m.multipart && FirstPlain(m.parts).Some? ==>
            body == dec.utf8(m.parts[FirstPlain(m.parts).value].payload.raw))
      && (m.multipart && FirstPlain(m.parts).None? ==> body == "")
      && (!m.multipart && m.single.SingleBytes? ==> body == dec.utf8(m.single.raw))
      && (!m.multipart && m.single.SingleText? ==> body == m.single.text)
      && (!m.multipart && m.single.SingleOther? ==> body == m.single.shown)
  {
  }

  /**
   * `parse_email` raises exactly when `decode_header` raises, when the
   * subject's charset is unknown, or when a single-part message's second
   * `get_payload` raises too.
   */
  lemma ParseFailures(m: GmailMessage, dec: Decoders, parseDate: string -> Option<DateTime>)
    ensures Parse(m, dec, parseDate).None? <==>
      || m.subject == Some(HeaderRaises)
      || (m.subject.Some? && m.subject.value.BytesChunk? && SubjectOf(m.subject, dec).None?)
      || (!m.multipart && m.single == SingleRaises(None))
  {
  }

  /** A part without a Content-Disposition header is no attachment. */
  lemma NoDispositionIsNoAttachment()
    ensures !Contains(DispositionText(None), "attachment")
  {
    var s := DispositionText(None);
    assert |s| < |"attachment"|;
  }

  /** An element of the `msg_data[0]` tuple: the raw message bytes, or anything else. */
  datatype Elem = MessageBytes(msg: GmailMessage) | OtherElem

  /** An entry of `msg_data`. */
  datatype Datum = TupleDatum(items: seq<Elem>) | OtherDatum

  /** `status, msg_data = mail.fetch(eid, "(RFC822)")`; `data` is `None` for a `msg_data` of `None`. */
  datatype FetchResponse = FetchResponse(status: string, data: Option<seq<Datum>>)

  /** The guard of `triage_emails`: status OK and a first tuple with at least two items. */
  predicate Usable(r: FetchResponse) {
    && r.status == "OK"
    && r.data.Some? && |r.data.value| > 0
    && r.data.value[0].TupleDatum? && |r.data.value[0].items| > 1
  }

  datatype World = World(
    connects: bool,                        // connect_gmail returns (it raises otherwise)
    messages: seq<Bytes>,                  // the data of mail.search(None, 'UNSEEN')
    fetch: Bytes -> FetchResponse,
    dec: Decoders,
    ask: string -> Reply,                  // ask_ollama; an exception is a `Failed` reply
    parseDate: string -> Option<DateTime>, // dateutil.parser.parse, None when it raises
    logOpens: Bytes -> bool,               // the log file opens and takes the six writes
    notionAccepts: Bytes -> bool)          // new_page_to_db does not raise

  /** What a stretch of the run leaves behind, and whether an exception ended it. */
  datatype Outcome = Outcome(eff: Effects, crashed: bool)

  const Nothing: Outcome := Outcome(NoEffects, false)

  /** The parsed message behind a usable response, or `None` when parsing it raises. */
  function Message(w: World, r: FetchResponse): Option<ParsedEmail>
    requires Usable(r)
  {
    match r.data.value[0].items[1]
    case MessageBytes(m) => Parse(m, w.dec, w.parseDate)
    case OtherElem => None
  }

  /**
   * `message_from_bytes(msg_data[0][1])` and then `parse_email` raise
   * exactly when the fetched element is not bytes or when parsing the
   * message raises.
   */
  lemma MessageRaises(w: World, r: FetchResponse)
    requires Usable(r)
    ensures var e := r.data.value[0].items[1];
      Message(w, r).None? <==> e == OtherElem || (e.MessageBytes? && Parse(e.msg, w.dec, w.parseDate).None?)
  {
  }

  /** The label `triage_emails` computes for a parsed message. */
  function LabelOf(w: World, p: ParsedEmail): string {
    ClassifyGmail(p.subject, p.body, w.ask)
  }

  /** What a routed message writes: the log block if the file opens, the page if Notion takes it. */
  function Route(w: World, id: Bytes, p: ParsedEmail): Effects {
    Effects(
      if w.logOpens(id) then LogBlock(p, ActionRequired) else [],
      if w.notionAccepts(id) then [NotionPageFor(p)] else [])
  }

  /** One pass of the loop body of `triage_emails`, for one id. */
  function Step(w: World, id: Bytes): Outcome {
    var r := w.fetch(id);
    if !Usable(r) then Nothing
    else match Message(w, r)
      case None => Outcome(NoEffects, true)
      case Some(p) =>
        if LabelOf(w, p) == ActionRequired then Outcome(Route(w, id, p), false) else Nothing
  }

  /** One stretch of the run, then the next unless the first ended in an exception. */
  function AndThen(a: Outcome, b: Outcome): Outcome {
    if a.crashed then a else Outcome(Then(a.eff, b.eff), b.crashed)
  }

  /** The loop of `triage_emails` over `ids`, in order, until an exception. */
  function Run(w: World, ids: seq<Bytes>): Outcome
    decreases |ids|
  {
    if ids == [] then Nothing
    else AndThen(Run(w, ids[..|ids| - 1]), Step(w, ids[|ids| - 1]))
  }

  /**
   * What one id leaves behind: a log block exactly when the message is
   * labelled "🅾️ Action Required" and the log file opens; a Notion page
   * exactly when it is so labelled and Notion takes it, whether or not the
   * log file opened.
   */
  lemma StepRouting(w: World, id: Bytes)
    ensures var out := Step(w, id);
      var routed := Usable(w.fetch(id)) && Message(w, w.fetch(id)).Some?
        && LabelOf(w, Message(w, w.fetch(id)).value) == ActionRequired;
      && (out.eff.log != [] <==> routed && w.logOpens(id))
      && (out.eff.pages != [] <==> routed && w.notionAccepts(id))
      && (out.crashed <==> Usable(w.fetch(id)) && Message(w, w.fetch(id)).None?)
      && (out.crashed ==> out.eff == NoEffects)
  {
  }

  lemma AndThenAssociative(a: Outcome, b: Outcome, c: Outcome)
    ensures AndThen(AndThen(a, b), c) == AndThen(a, AndThen(b, c))
  {
    if !a.crashed && !b.crashed {
      ThenAssociative(a.eff, b.eff, c.eff);
    }
  }

  lemma AndThenNothing(a: Outcome)
    ensures AndThen(a, Nothing) == Outcome(a.eff, a.crashed)
  {
    ThenNone(a.eff);
  }

  /** The run over `a + b` is the run over `a`, then, unless it crashed, the run over `b`. */
  lemma {:induction false} RunAppend(w: World, a: seq<Bytes>, b: seq<Bytes>)
    ensures Run(w, a + b) == AndThen(Run(w, a), Run(w, b))
    decreases |b|
  {
    if b == [] {
      assert a + b == a;
      AndThenNothing(Run(w, a));
    } else {
      var b' := b[..|b| - 1];
      assert (a + b)[..|a + b| - 1] == a + b';
      assert (a + b)[|a + b| - 1] == b[|b| - 1];
      RunAppend(w, a, b');
      AndThenAssociative(Run(w, a), Run(w, b'), Step(w, b[|b| - 1]));
    }
  }

  lemma RunSingle(w: World, id: Bytes)
    ensures Run(w, [id]) == Step(w, id)
  {
    assert [id][..0] == [];
    var s := Step(w, id);
    ThenNone(s.eff);
    assert Then(NoEffects, s.eff) == s.eff by {
      assert [] + s.eff.log == s.eff.log;
      assert [] + s.eff.pages == s.eff.pages;
    }
  }

  /** An id whose fetch fails the guard is skipped, and only it. */
  lemma UnusableSkipsOnlyIt(w: World, a: seq<Bytes>, id: Bytes, b: seq<Bytes>)
    requires !Usable(w.fetch(id))
    ensures Run(w, a + [id] + b) == Run(w, a + b)
  {
    RunAppend(w, a + [id], b);
    RunAppend(w, a, [id]);
    RunSingle(w, id);
    AndThenNothing(Run(w, a));
    RunAppend(w, a, b);
  }

  /** An id whose message cannot be parsed ends the run: no later id has any effect. */
  lemma CrashStopsRun(w: World, a: seq<Bytes>, id: Bytes, b: seq<Bytes>)
    requires Step(w, id).crashed
    ensures Run(w, a + [id] + b) == Outcome(Run(w, a).eff, true)
  {
    StepRouting(w, id);
    RunAppend(w, a + [id], b);
    RunAppend(w, a, [id]);
    RunSingle(w, id);
    if !Run(w, a).crashed {
      ThenNone(Run(w, a).eff);
    }
  }

  /** The body of the `for eid in email_ids` loop; returns whether it raised. */
  method HandleId(w: World, id: Bytes, box: Outbox) returns (crashed: bool)
    modifies box
    ensures crashed == Step(w, id).crashed
    ensures box.State() == Then(old(box.State()), Step(w, id).eff)
  {
    ThenNone(box.State());
    var r := w.fetch(id);
    if !Usable(r) {
      return false;
    }
    var p: Option<ParsedEmail>;
    match r.data.value[0].items[1] {
      case MessageBytes(m) =>
        p := ParseEmail(m, w.dec, w.parseDate);
      case OtherElem =>
        p := None;
    }
    if p.None? {
      return true;
    }
    var msg := p.value;
    var tag := ClassifyGmail(msg.subject, msg.body, w.ask);
    if tag == ActionRequired {
      if w.logOpens(id) {
        box.Append(LogBlock(msg, tag));
      }
      if w.notionAccepts(id) {
        box.CreatePage(NotionPageFor(msg));
      }
    }
    return false;
  }

  /** Once the run has crashed, further ids change nothing. */
  lemma RunAfterCrash(w: World, a: seq<Bytes>, b: seq<Bytes>)
    requires Run(w, a).crashed
    ensures Run(w, a + b) == Run(w, a)
  {
    RunAppend(w, a, b);
  }

  /** The run over the first `i + 1` ids is the run over the first `i`, then id `i`. */
  lemma RunExtend(w: World, ids: seq<Bytes>, i: nat)
    requires i < |ids|
    ensures Run(w, ids[..i + 1]) == AndThen(Run(w, ids[..i]), Step(w, ids[i]))
  {
    assert ids[..i + 1][..i] == ids[..i];
  }

  /** The run that crashed at id `i` is the whole run. */
  lemma RunCrashedAt(w: World, ids: seq<Bytes>, i: nat)
    requires i < |ids| && Run(w, ids[..i + 1]).crashed
    ensures Run(w, ids) == Run(w, ids[..i + 1])
  {
    RunAfterCrash(w, ids[..i + 1], ids[i + 1..]);
    assert ids[..i + 1] + ids[i + 1..] == ids;
  }

  /** The `for eid in email_ids` loop; returns whether an exception ended it. */
  method HandleAll(w: World, ids: seq<Bytes>, box: Outbox) returns (crashed: bool)
    modifies box
    ensures crashed == Run(w, ids).crashed
    ensures box.State() == Then(old(box.State()), Run(w, ids).eff)
  {
    ghost var start := box.State();
    ghost var out := Nothing;
    ThenNone(start);
    for i := 0 to |ids|
      invariant out == Run(w, ids[..i]) && !out.crashed
      invariant box.State() == Then(start, out.eff)
    {
      var id := ids[i];
      RunExtend(w, ids, i);
      ThenAssociative(start, out.eff, Step(w, id).eff);
      crashed := HandleId(w, id, box);
      out := AndThen(out, Step(w, id));
      if crashed {
        RunCrashedAt(w, ids, i);
        return;
      }
    }
    assert ids[..|ids|] == ids;
    return false;
  }

  /**
   * `triage_emails`: returns whether an exception ended it (a failed
   * connection, an empty search response, or a message that cannot be
   * parsed). The session is never logged out.
   */
  method TriageEmails(w: World, box: Outbox) returns (crashed: bool)
    modifies box
    ensures !w.connects || w.messages == [] ==> crashed && box.State() == old(box.State())
    ensures w.connects && w.messages != [] ==>
      var out := Run(w, FetchUnreadEmails(w.messages).value);
      crashed == out.crashed && box.State() == Then(old(box.State()), out.eff)
  {
    if !w.connects {
      return true;
    }
    var ids := FetchUnreadEmails(w.messages);
    if ids.None? {
      return true;
    }
    crashed := HandleAll(w, ids.value, box);
  }
}
