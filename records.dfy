/**
 * What both triage scripts produce from one parsed message: the date value,
 * the six-write block appended to `action_emails.txt`, and the property record
 * sent to the Notion database. `Outbox` holds the two sinks, which the
 * scripts only ever append to.
 */
module Records {
  import opened Common
  import opened PyStr

  /**
   * A `datetime` returned by `dateutil.parser.parse`, kept as its two
   * renderings: `text` is what an f-string prints, `iso` is `isoformat()`.
   */
  datatype DateTime = DateTime(text: string, iso: string)

  /** `date_received`: a parsed `datetime`, or the string "Unknown Date". */
  datatype DateValue = Received(dt: DateTime) | UnknownDate

  const UnknownDateText: string := "Unknown Date"

  /**
   * The date step of both `parse_email` functions: an empty (or absent) Date
   * header, or one the parser rejects, leaves "Unknown Date".
   */
  function DateOf(header: string, parseDate: string -> Option<DateTime>): (d: DateValue)
    ensures header == [] ==> d == UnknownDate
    ensures header != [] && parseDate(header).None? ==> d == UnknownDate
    ensures header != [] && parseDate(header).Some? ==> d == Received(parseDate(header).value)
  {
    if header == [] then UnknownDate
    else match parseDate(header)
      case Some(dt) => Received(dt)
      case None => UnknownDate
  }

  /** `f"{date_received}"` */
  function DateDisplay(d: DateValue): string {
    match d
    case Received(dt) => dt.text
    case UnknownDate => UnknownDateText
  }

  /** The four values `parse_email` returns. */
  datatype ParsedEmail = ParsedEmail(subject: string, sender: string, date: DateValue, body: string)

  const BlockHeader: string := "--- Action Required Email ---\n"
  const BlockRule: string := "-----------------------------\n\n"

  /** The six `f.write` calls for one routed message, in order. */
  function LogBlock(p: ParsedEmail, tag: string): (lines: seq<string>)
    ensures |lines| == 6 && lines[0] == BlockHeader && lines[5] == BlockRule
  {
    [ BlockHeader,
      "Received Date: " + DateDisplay(p.date) + "\n",
      "Subject: " + p.subject + "\n",
      "Classification: " + tag + "\n",
      "Body:\n" + p.body + "\n",
      BlockRule ]
  }

  /**
   * Nothing is lost in the block: two blocks are equal only when they carry
   * the same printed date, subject, label and body.
   */
  lemma LogBlockInjective(p: ParsedEmail, t: string, q: ParsedEmail, u: string)
    requires LogBlock(p, t) == LogBlock(q, u)
    ensures DateDisplay(p.date) == DateDisplay(q.date)
    ensures p.subject == q.subject && t == u && p.body == q.body
  {
    var a := LogBlock(p, t);
    var b := LogBlock(q, u);
    assert a[1] == b[1] && a[2] == b[2] && a[3] == b[3] && a[4] == b[4];
    CancelAround("Received Date: ", DateDisplay(p.date), DateDisplay(q.date), "\n");
    CancelAround("Subject: ", p.subject, q.subject, "\n");
    CancelAround("Classification: ", t, u, "\n");
    CancelAround("Body:\n", p.body, q.body, "\n");
  }

  /** The Notion page properties: Subject title, Body rich text, From email, Date start. */
  datatype NotionPage = NotionPage(subject: string, body: string, from: string, dateStart: Option<string>)

  const NotionBodyLimit: nat := 2000

  /**
   * `page_properties` for one routed message: the body cut to its first 2000
   * characters, subject and sender as parsed, and a date start only for a
   * real `datetime` (`None` for "Unknown Date").
   */
  function NotionPageFor(p: ParsedEmail): (page: NotionPage)
    ensures page.subject == p.subject && page.from == p.sender
    ensures |page.body| <= NotionBodyLimit && |page.body| <= |p.body| && page.body == p.body[..|page.body|]
    ensures |p.body| <= NotionBodyLimit ==> page.body == p.body
    ensures |p.body| > NotionBodyLimit ==> |page.body| == NotionBodyLimit
    ensures page.dateStart.Some? <==> p.date.Received?
    ensures p.date.Received? ==> page.dateStart.value == p.date.dt.iso
  {
    NotionPage(
      p.subject,
      Take(p.body, NotionBodyLimit),
      p.sender,
      if p.date.Received? then Some(p.date.dt.iso) else None)
  }

  /** What one run leaves behind: the writes to the log file and the pages created. */
  datatype Effects = Effects(log: seq<string>, pages: seq<NotionPage>)

  const NoEffects: Effects := Effects([], [])

  /** The effects of one stretch of the run followed by those of the next. */
  function Then(a: Effects, b: Effects): (r: Effects)
    ensures |r.log| == |a.log| + |b.log| && |r.pages| == |a.pages| + |b.pages|
  {
    Effects(a.log + b.log, a.pages + b.pages)
  }

  lemma ThenNone(x: Effects)
    ensures Then(x, NoEffects) == x
  {
    assert x.log + [] == x.log;
    assert x.pages + [] == x.pages;
  }

  lemma ThenAssociative(a: Effects, b: Effects, c: Effects)
    ensures Then(Then(a, b), c) == Then(a, Then(b, c))
  {
    assert (a.log + b.log) + c.log == a.log + (b.log + c.log);
    assert (a.pages + b.pages) + c.pages == a.pages + (b.pages + c.pages);
  }

  /** `action_emails.txt` (opened in append mode) and the Notion database. */
  class Outbox {
    var log: seq<string>
    var pages: seq<NotionPage>

    constructor (log0: seq<string>, pages0: seq<NotionPage>)
      ensures log == log0 && pages == pages0
    {
      log := log0;
      pages := pages0;
    }

    /** The writes of one `with open(..., "a")` block, appended after what is there. */
    method Append(lines: seq<string>)
      modifies this
      ensures log == old(log) + lines && pages == old(pages)
    {
      log := log + lines;
    }

    /** `notion_helper.new_page_to_db` */
    method CreatePage(page: NotionPage)
      modifies this
      ensures pages == old(pages) + [page] && log == old(log)
    {
      pages := pages + [page];
    }

    /** Both sinks together, as an `Effects` value. */
    function State(): Effects
      reads this
    {
      Effects(log, pages)
    }
  }
}
