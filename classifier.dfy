/**
 * The two `classify_email` variants: a prompt is built from the subject and
 * the body, sent to the local model, and the reply is mapped to a label.
 * The model is an oracle `ask` from prompt to reply (decoding is pinned to
 * temperature 0, so one prompt gets one reply).
 */
module Classifier {
  import opened PyStr

  const ActionRequired: string := "\U{1F17E}\U{FE0F} Action Required"
  const Spam: string := "Spam"
  const LowPriority: string := "Low Priority"
  const Unknown: string := "Unknown"

  /** What `ask_ollama` returns: the reply text, or `False` after any error. */
  datatype Reply = Text(text: string) | Failed

  /** `isinstance(content, str) and content` */
  predicate HasText(r: Reply) {
    r.Text? && r.text != []
  }

  /** The iCloud prompt, which carries only `body[:500]`. */
  function ICloudPrompt(subject: string, body: string): string {
    "Classify this email into exactly one of these categories: '" + ActionRequired
      + "', 'Spam', or 'Low Priority'.\n\n    Subject: " + subject
      + "\n    Body: " + Take(body, 500)
      + "...\n\n    Respond with only the category name:"
  }

  /** The Gmail prompt, which carries the whole body. */
  function GmailPrompt(subject: string, body: string): string {
    "Classify this email into one of: '" + ActionRequired
      + "', 'Spam', or 'Low Priority'.\n\n    Subject: " + subject
      + "\n    Body: " + body
      + "\n\n    Classification:"
  }

  /**
   * The iCloud clean-up of a reply: strip, then delete every
   * `"Classification: "`, then every `'`, then every `"`. Nothing is stripped
   * again afterwards.
   */
  function NormaliseReply(text: string): (r: string)
    ensures '\'' !in r && '"' !in r
    ensures |r| <= |text|
  {
    var c := DeleteAll(DeleteAll(Strip(text), "Classification: "), "'");
    DeleteCharRemovesAll(DeleteAll(Strip(text), "Classification: "), '\'');
    DeleteCharRemovesAll(c, '"');
    assert '\'' !in DeleteAll(c, "\"") by {
      DeleteAllKeepsAbsent(c, "\"", '\'');
    }
    DeleteAll(c, "\"")
  }

  /** Deleting a pattern cannot bring in a character that was not there. */
  lemma {:induction false} DeleteAllKeepsAbsent(s: string, pat: string, c: char)
    requires c !in s
    ensures c !in DeleteAll(s, pat)
    decreases |s|
  {
    if pat != [] && |s| >= |pat| {
      if s[..|pat|] == pat {
        assert c !in s[|pat|..];
        DeleteAllKeepsAbsent(s[|pat|..], pat, c);
      } else {
        assert c !in s[1..];
        DeleteAllKeepsAbsent(s[1..], pat, c);
      }
    }
  }

  /** The iCloud mapping from a reply to a label. */
  function ICloudLabel(reply: Reply): string {
    if HasText(reply) then
      var c := NormaliseReply(reply.text);
      if c == ActionRequired || c == Spam || c == LowPriority then c else LowPriority
    else
      Unknown
  }

  /**
   * The iCloud label is one of exactly four strings, and it is "Unknown"
   * exactly when the model gave no text.
   */
  lemma ICloudLabelClosed(reply: Reply)
    ensures var tag := ICloudLabel(reply);
      && (tag == ActionRequired || tag == Spam || tag == LowPriority || tag == Unknown)
      && (tag == Unknown <==> !HasText(reply))
  {
  }

  /** icloud_triage.py `classify_email` */
  function ClassifyICloud(subject: string, body: string, ask: string -> Reply): string {
    ICloudLabel(ask(ICloudPrompt(subject, body)))
  }

  /** The Gmail mapping: the stripped reply itself, or `"Unknown"` without one. */
  function GmailLabel(reply: Reply): string {
    if HasText(reply) then Strip(reply.text) else Unknown
  }

  /**
   * The Gmail label is "Unknown" without a reply text, and otherwise the
   * reply with its ends trimmed: one contiguous slice of it, with only
   * whitespace dropped on either side and none left at its ends.
   */
  lemma GmailLabelSpec(reply: Reply)
    ensures var tag := GmailLabel(reply);
      && (!HasText(reply) ==> tag == Unknown)
      && (HasText(reply) ==> NonSpace(tag) == NonSpace(reply.text))
      && (tag == [] || (!IsSpace(tag[0]) && !IsSpace(tag[|tag| - 1])))
      && (HasText(reply) ==>
            var t := reply.text;
            var i := StripStart(t);
            && i + |tag| <= |t| && tag == t[i..i + |tag|]
            && AllSpace(t[..i]) && AllSpace(t[i + |tag|..]))
  {
    if HasText(reply) {
      StripKeepsNonSpace(reply.text);
      StripEnds(reply.text);
      StripIsSlice(reply.text);
    }
  }

  /** gmail_triage.py `classify_email` */
  function ClassifyGmail(subject: string, body: string, ask: string -> Reply): string {
    GmailLabel(ask(GmailPrompt(subject, body)))
  }

  /**
   * Which label the iCloud mapping returns: a label exactly when the cleaned
   * reply is that label, and "Low Priority" also for every other text.
   */
  lemma ICloudLabelExactMatch(t: string)
    requires t != []
    ensures ICloudLabel(Text(t)) == ActionRequired <==> NormaliseReply(t) == ActionRequired
    ensures ICloudLabel(Text(t)) == Spam <==> NormaliseReply(t) == Spam
    ensures ICloudLabel(Text(t)) == LowPriority
      <==> NormaliseReply(t) != ActionRequired && NormaliseReply(t) != Spam
  {
  }

  /** A reply of only whitespace is a text, so it is not "Unknown": it is "Low Priority". */
  lemma ICloudWhitespaceReply(t: string)
    requires t != [] && AllSpace(t)
    ensures ICloudLabel(Text(t)) == LowPriority
  {
    StripAllSpace(t);
  }

  /** The clean-up, one stage at a time. */
  lemma NormaliseStages(t: string, a: string, b: string, c: string, d: string)
    requires Strip(t) == a && DeleteAll(a, "Classification: ") == b
    requires DeleteAll(b, "'") == c && DeleteAll(c, "\"") == d
    ensures NormaliseReply(t) == d
  {
  }

  /** No `C`, `'` or `"` in `t`: none of the three deletions can touch it. */
  predicate NoMarkers(t: string) {
    'C' !in t && '\'' !in t && '"' !in t
  }

  /** A reply that strips to marker-free text is cleaned to exactly that text. */
  lemma NormaliseStripped(t: string, u: string)
    requires Strip(t) == u && NoMarkers(u)
    ensures NormaliseReply(t) == u
  {
    DeleteAbsentHead(u, "Classification: ");
    DeleteAbsentHead(u, "'");
    DeleteAbsentHead(u, "\"");
    NormaliseStages(t, u, u, u, u);
  }

  /** A reply with no markers and no whitespace at its ends is left as it is. */
  lemma NormaliseUntouched(t: string)
    requires t == [] || (!IsSpace(t[0]) && !IsSpace(t[|t| - 1]))
    requires NoMarkers(t)
    ensures NormaliseReply(t) == t
  {
    StripUntrimmed(t);
    NormaliseStripped(t, t);
  }

  lemma QuotesDeleted(t: string)
    requires '\'' !in t
    ensures DeleteAll("'" + t + "'", "'") == t
  {
    DeleteCharAppend("'" + t, "'", '\'');
    DeleteCharAppend("'", t, '\'');
    DeleteAbsentHead(t, "'");
    DeleteLeading("'", []);
    DeleteLeading("'", t);
  }

  /** Single quotes around a reply are deleted, and whatever they enclosed stays, spaces too. */
  lemma NormaliseQuoted(t: string)
    requires NoMarkers(t)
    ensures NormaliseReply("'" + t + "'") == t
  {
    var q := "'" + t + "'";
    assert q[0] == '\'' && q[|q| - 1] == '\'';
    StripUntrimmed(q);
    assert 'C' !in q;
    DeleteAbsentHead(q, "Classification: ");
    QuotesDeleted(t);
    DeleteAbsentHead(t, "\"");
    NormaliseStages(q, q, q, t, t);
  }

  /** So a quoted reply gets the label it quotes, and "Low Priority" if it quotes anything else. */
  lemma ICloudQuoted(t: string)
    requires NoMarkers(t)
    ensures ICloudLabel(Text("'" + t + "'")) == (if t in [ActionRequired, Spam, LowPriority] then t else LowPriority)
  {
    NormaliseQuoted(t);
    ICloudLabelExactMatch("'" + t + "'");
  }

  /** A leading "Classification: " goes, and so does every other copy. */
  lemma PrefixWordDeleted(t: string)
    requires !Contains(t, "Classification: ")
    ensures DeleteAll("Classification: " + t, "Classification: ") == t
  {
    DeleteLeading("Classification: ", t);
    DeleteAbsent(t, "Classification: ");
  }

  /** A leading "Classification: " is deleted: the reply cleans as if it were not there. */
  lemma NormalisePrefixed(t: string)
    requires t != [] && !IsSpace(t[0]) && !IsSpace(t[|t| - 1])
    ensures NormaliseReply("Classification: " + t) == NormaliseReply(t)
  {
    var p := "Classification: " + t;
    assert p[0] == 'C' && p[|p| - 1] == t[|t| - 1];
    StripUntrimmed(p);
    StripUntrimmed(t);
    DeleteLeading("Classification: ", t);
    var b := DeleteAll(t, "Classification: ");
    var c := DeleteAll(b, "'");
    var d := DeleteAll(c, "\"");
    NormaliseStages(p, p, b, c, d);
    NormaliseStages(t, t, b, c, d);
  }

  lemma ICloudOfNormalised(x: string, t: string)
    requires x != [] && NormaliseReply(x) == t
    ensures ICloudLabel(Text(x)) == (if t in [ActionRequired, Spam, LowPriority] then t else LowPriority)
  {
  }

  /** A "Classification: " prefix and quotes around the label are both cleaned away. */
  lemma ICloudPrefixedQuoted(t: string)
    requires NoMarkers(t)
    ensures ICloudLabel(Text("Classification: '" + t + "'"))
      == (if t in [ActionRequired, Spam, LowPriority] then t else LowPriority)
  {
    var q := "'" + t + "'";
    var s := "Classification: '" + t + "'";
    assert s == "Classification: " + q;
    assert q[0] == '\'' && q[|q| - 1] == '\'';
    NormalisePrefixed(q);
    NormaliseQuoted(t);
    ICloudOfNormalised(s, t);
  }

  /** The prefix with a quote after its sixth letter does not start with the prefix. */
  lemma QuotedPrefixShape(t: string)
    ensures var x := "Classi'fication: " + t;
      |x| >= 16 && x[..16] != "Classification: " && x[1..] == "lassi'fication: " + t
  {
    var x := "Classi'fication: " + t;
    assert x[6] == '\'';
  }

  /** Around its quote, the quoted prefix is the prefix in two pieces. */
  lemma QuotedPrefixPieces(t: string)
    ensures "Classi'fication: " + t == "Classi" + ['\''] + ("fication: " + t)
    ensures "Classi" + ("fication: " + t) == "Classification: " + t
  {
  }

  /** A quote inside the prefix hides it from the "Classification: " deletion. */
  lemma PrefixWithQuoteKept(t: string)
    requires 'C' !in t
    ensures DeleteAll("Classi'fication: " + t, "Classification: ") == "Classi'fication: " + t
  {
    QuotedPrefixShape(t);
    assert 'C' !in "lassi'fication: " + t;
    KeptWhenHeadDiffers("Classi'fication: " + t, "Classification: ");
  }

  /** Deleting that quote rebuilds the prefix. */
  lemma PrefixWithQuoteRebuilt(t: string)
    requires '\'' !in t
    ensures DeleteAll("Classi'fication: " + t, "'") == "Classification: " + t
  {
    QuotedPrefixPieces(t);
    assert '\'' !in "fication: " + t;
    DeleteCharBetween("Classi", "fication: " + t, '\'');
  }

  /**
   * A quote inside the prefix hides it from the "Classification: " deletion,
   * which runs first; the quote deletion that follows rebuilds the prefix,
   * and it stays.
   */
  lemma QuoteHidesPrefix(t: string)
    requires t != [] && !IsSpace(t[|t| - 1]) && NoMarkers(t)
    ensures NormaliseReply("Classi'fication: " + t) == "Classification: " + t
  {
    var x := "Classi'fication: " + t;
    var c := "Classification: " + t;
    assert x[0] == 'C' && x[|x| - 1] == t[|t| - 1];
    StripUntrimmed(x);
    PrefixWithQuoteKept(t);
    PrefixWithQuoteRebuilt(t);
    assert '"' !in c;
    DeleteAbsentHead(c, "\"");
    NormaliseStages(x, x, x, c, c);
  }

  /** Deleting the quotes first would have uncovered the prefix and removed it. */
  lemma QuotesFirstUncoverPrefix(t: string)
    requires 'C' !in t && '\'' !in t
    ensures DeleteAll(DeleteAll("Classi'fication: " + t, "'"), "Classification: ") == t
  {
    PrefixWithQuoteRebuilt(t);
    DeleteLeading("Classification: ", t);
    DeleteAbsentHead(t, "Classification: ");
  }

  /** A reply `Classi'fication: <t>` keeps the prefix, so it is no label and gets "Low Priority". */
  lemma QuoteInPrefixIsLow(t: string)
    requires t != [] && !IsSpace(t[|t| - 1]) && NoMarkers(t)
    ensures ICloudLabel(Text("Classi'fication: " + t)) == LowPriority
  {
    var u := "Classification: " + t;
    QuoteHidesPrefix(t);
    assert u[0] == 'C';
    assert ActionRequired[0] != 'C' && Spam[0] != 'C' && LowPriority[0] != 'C';
    ICloudOfNormalised("Classi'fication: " + t, u);
  }

  /**
   * The prefix is deleted wherever it stands, not only at the start: in a
   * reply quoted as a whole, `'Classification: <t>'`, it goes, and so do the
   * quotes.
   */
  lemma QuotedWholeReply(t: string)
    requires NoMarkers(t)
    ensures NormaliseReply("'Classification: " + t + "'") == t
  {
    var pat := "Classification: ";
    var x := "'" + pat + (t + "'");
    assert x == "'Classification: " + t + "'";
    assert x[0] == '\'' && x[|x| - 1] == '\'';
    StripUntrimmed(x);
    assert 'C' !in t + "'";
    NoOccurrenceWithoutHead("'", pat + (t + "'"), pat);
    DeleteAt("'", pat, t + "'");
    DeleteAbsentHead(t + "'", pat);
    assert "'" + (t + "'") == "'" + t + "'";
    QuotesDeleted(t);
    DeleteAbsentHead(t, "\"");
    NormaliseStages(x, x, "'" + t + "'", t, t);
  }

  /** A reply quoted as a whole with the prefix inside gets the label it quotes. */
  lemma ICloudQuotedWhole(t: string)
    requires NoMarkers(t)
    ensures ICloudLabel(Text("'Classification: " + t + "'"))
      == (if t in [ActionRequired, Spam, LowPriority] then t else LowPriority)
  {
    QuotedWholeReply(t);
    ICloudOfNormalised("'Classification: " + t + "'", t);
  }

  /** `'Classification: Spam'`, quoted as a whole, is "Spam". */
  lemma QuotedWholeSpam()
    ensures ICloudLabel(Text("'Classification: Spam'")) == Spam
  {
    var x := "'Classification: " + Spam + "'";
    assert x == "'Classification: Spam'";
    assert NoMarkers(Spam);
    ICloudQuotedWhole(Spam);
  }

  /**
   * The "Classification: " deletion runs before the quote deletion:
   * `Classi'fication: Spam` is "Low Priority", where the other order would
   * have left "Spam".
   */
  lemma PrefixDeletedBeforeQuotes()
    ensures ICloudLabel(Text("Classi'fication: Spam")) == LowPriority
    ensures DeleteAll(DeleteAll("Classi'fication: Spam", "'"), "Classification: ") == Spam
  {
    var x := "Classi'fication: " + Spam;
    assert x == "Classi'fication: Spam";
    assert NoMarkers(Spam) && Spam[3] == 'm';
    QuoteInPrefixIsLow(Spam);
    QuotesFirstUncoverPrefix(Spam);
  }

  /**
   * Deleting quotes can uncover spaces that `strip` already passed, and
   * these stay: `' Spam'` is not "Spam".
   */
  lemma QuotedSpaceStays()
    ensures ICloudLabel(Text("' Spam'")) == LowPriority
  {
    var t := " Spam";
    var x := "'" + t + "'";
    assert x == "' Spam'";
    assert NoMarkers(t) && |t| == 5 && |Spam| == 4 && |LowPriority| == 12 && |ActionRequired| == 18;
    ICloudQuoted(t);
  }

  /** `Classification: 'Spam'` is cleaned to "Spam". */
  lemma PrefixedQuotedSpam()
    ensures ICloudLabel(Text("Classification: 'Spam'")) == Spam
  {
    var x := "Classification: '" + Spam + "'";
    assert x == "Classification: 'Spam'";
    assert NoMarkers(Spam);
    ICloudPrefixedQuoted(Spam);
  }

  /** The Gmail label is not confined to the label set, and blank replies give "". */
  lemma GmailLabelOpenEnded(t: string)
    requires t != [] && AllSpace(t)
    ensures GmailLabel(Text(t)) == []
    ensures GmailLabel(Text("Maybe")) == "Maybe"
  {
    StripAllSpace(t);
    StripUntrimmed("Maybe");
  }

  /** A reply that strips to a marker-free label gets that label. */
  lemma ICloudStrippedLabel(t: string, u: string)
    requires Strip(t) == u && NoMarkers(u) && u in [ActionRequired, Spam, LowPriority]
    ensures ICloudLabel(Text(t)) == u
  {
    NormaliseStripped(t, u);
  }

  /** The three labels carry no marker that the iCloud clean-up would delete. */
  lemma LabelsHaveNoMarkers(u: string)
    requires u in [ActionRequired, Spam, LowPriority]
    ensures NoMarkers(u)
  {
  }

  /**
   * Whenever the Gmail variant gives a label (so also whenever it routes a
   * message), the iCloud variant gives the same label.
   */
  lemma GmailLabelImpliesICloudLabel(r: Reply, u: string)
    requires u in [ActionRequired, Spam, LowPriority]
    ensures GmailLabel(r) == u ==> ICloudLabel(r) == u
  {
    if GmailLabel(r) == u {
      LabelsHaveNoMarkers(u);
      ICloudStrippedLabel(r.text, u);
    }
  }

  /** The converse fails: the quoted label routes in the iCloud variant only. */
  lemma QuotedLabelRoutesOnlyInICloud()
    ensures ICloudLabel(Text("'" + ActionRequired + "'")) == ActionRequired
    ensures GmailLabel(Text("'" + ActionRequired + "'")) != ActionRequired
  {
    assert NoMarkers(ActionRequired);
    ICloudQuoted(ActionRequired);
    var q := "'" + ActionRequired + "'";
    assert q[0] == '\'' && q[|q| - 1] == '\'';
    StripUntrimmed(q);
  }

  /** A marker-free reply that is not a label, with no whitespace at its ends, is "Low Priority". */
  lemma ICloudPlainOther(t: string)
    requires t != [] && !IsSpace(t[0]) && !IsSpace(t[|t| - 1]) && NoMarkers(t)
    requires t != ActionRequired && t != Spam && t != LowPriority
    ensures ICloudLabel(Text(t)) == LowPriority
  {
    NormaliseUntouched(t);
    ICloudLabelExactMatch(t);
  }

  /** The plain words "Action Required" are not the label, in either variant. */
  lemma PlainWordsDoNotRoute()
    ensures ICloudLabel(Text("Action Required")) == LowPriority
    ensures GmailLabel(Text("Action Required")) != ActionRequired
  {
    var t := "Action Required";
    assert t[0] == 'A' && t[|t| - 1] == 'd' && NoMarkers(t);
    assert |t| == 15 && |ActionRequired| == 18 && |Spam| == 4 && |LowPriority| == 12;
    ICloudPlainOther(t);
    StripUntrimmed(t);
  }

  /** The iCloud prompt sees the first 500 characters of the body and no more. */
  lemma ICloudPromptSeesFirst500(subject: string, b1: string, b2: string)
    ensures ICloudPrompt(subject, b1) == ICloudPrompt(subject, b2) <==> Take(b1, 500) == Take(b2, 500)
  {
    var a := "Classify this email into exactly one of these categories: '" + ActionRequired
      + "', 'Spam', or 'Low Priority'.\n\n    Subject: " + subject + "\n    Body: ";
    var z := "...\n\n    Respond with only the category name:";
    assert ICloudPrompt(subject, b1) == a + Take(b1, 500) + z;
    assert ICloudPrompt(subject, b2) == a + Take(b2, 500) + z;
    if ICloudPrompt(subject, b1) == ICloudPrompt(subject, b2) {
      CancelAround(a, Take(b1, 500), Take(b2, 500), z);
    }
  }

  /** So bodies that agree on their first 500 characters get the same iCloud label. */
  lemma ICloudLabelIgnoresTail(subject: string, b1: string, b2: string, ask: string -> Reply)
    requires Take(b1, 500) == Take(b2, 500)
    ensures ClassifyICloud(subject, b1, ask) == ClassifyICloud(subject, b2, ask)
  {
    ICloudPromptSeesFirst500(subject, b1, b2);
  }

  /** The Gmail prompt carries the body untruncated: different bodies, different prompts. */
  lemma GmailPromptSeesWholeBody(subject: string, b1: string, b2: string)
    requires b1 != b2
    ensures GmailPrompt(subject, b1) != GmailPrompt(subject, b2)
  {
    var a := "Classify this email into one of: '" + ActionRequired
      + "', 'Spam', or 'Low Priority'.\n\n    Subject: " + subject + "\n    Body: ";
    var z := "\n\n    Classification:";
    assert GmailPrompt(subject, b1) == a + b1 + z;
    assert GmailPrompt(subject, b2) == a + b2 + z;
    if GmailPrompt(subject, b1) == GmailPrompt(subject, b2) {
      CancelAround(a, b1, b2, z);
    }
  }

  /** So for any two different bodies some model reply routes one and not the other. */
  lemma GmailLabelCanSeeTail(subject: string, b1: string, b2: string)
    requires b1 != b2
    ensures var ask := (p: string) => if p == GmailPrompt(subject, b1) then Text(ActionRequired) else Failed;
      ClassifyGmail(subject, b1, ask) == ActionRequired && ClassifyGmail(subject, b2, ask) == Unknown
  {
    GmailPromptSeesWholeBody(subject, b1, b2);
    var ask := (p: string) => if p == GmailPrompt(subject, b1) then Text(ActionRequired) else Failed;
    assert ask(GmailPrompt(subject, b1)) == Text(ActionRequired);
    assert ask(GmailPrompt(subject, b2)) == Failed;
    StripUntrimmed(ActionRequired);
  }
}
