/**
 * The facility status report of the dashboard: feedbacks whose complaint
 * title mentions a maintenance keyword, the laundry and sauna bookings that
 * start after thirty days ago (future ones included), and the list of report cards built from them.
 */
module FacilityReport {
  import opened Options
  import opened Calendar
  import opened Seqs
  import Slots

  /** `maintenanceKeywords`, already in lower case. */
  const KEYWORDS: seq<string> := [
    "broken", "repair", "maintenance", "damage", "not working", "issue",
    "maintain", "fix", "fault", "error", "out of order"
  ]

  /** Thirty days in milliseconds (`30 * 24 * 60 * 60 * 1000`). */
  const THIRTY_DAYS: int := 2_592_000_000

  /** The complaint part of a feedback; either field may be absent. */
  datatype Complaint = Complaint(complaintTitle: Option<string>, complaintContent: Option<string>)

  /** A feedback document: optional complaint, optional creation time, and its client's name. */
  datatype Feedback = Feedback(complaint: Option<Complaint>, createdAt: Option<Instant>, clientName: Option<string>)

  /** One line of the maintenance card. */
  datatype Detail = Detail(title: string, description: string, date: Instant, reporter: string)

  datatype UsageStatus = Normal | HighUsage

  /** A report card: the maintenance card, or the laundry or sauna usage card. */
  datatype Report =
    | Maintenance(count: nat, details: seq<Detail>)
    | LaundryUsage(usage: nat, status: UsageStatus)
    | SaunaUsage(usage: nat, status: UsageStatus)

  /** `toLowerCase` on one character, for the letters A to Z. */
  function LowerChar(c: char): char
  {
    if 'A' <= c <= 'Z' then (c as int + 32) as char else c
  }

  /** `toLowerCase` on a string, letter by letter. */
  function Lower(s: string): string
  {
    seq(|s|, i requires 0 <= i < |s| => LowerChar(s[i]))
  }

  /** `text.includes(word)`, scanning from the front. */
  predicate Contains(text: string, word: string)
    decreases |text|
  {
    word <= text || (|text| > 0 && Contains(text[1..], word))
  }

  /** `word` occurs in `text` starting at position `i`. */
  predicate OccursAt(text: string, word: string, i: nat)
  {
    i + |word| <= |text| && text[i..i + |word|] == word
  }

  /** Where `includes` succeeds: a position at which the word occurs. */
  lemma {:induction false} ContainsWitness(text: string, word: string) returns (i: nat)
    requires Contains(text, word)
    ensures OccursAt(text, word, i)
    decreases |text|
  {
    if word <= text {
      i := 0;
    } else {
      var j := ContainsWitness(text[1..], word);
      i := j + 1;
      assert text[i..i + |word|] == text[1..][j..j + |word|];
    }
  }

  /** An occurrence at any position makes `includes` succeed. */
  lemma {:induction false} ContainsFrom(text: string, word: string, i: nat)
    requires OccursAt(text, word, i)
    ensures Contains(text, word)
    decreases i
  {
    if i > 0 {
      assert text[1..][i - 1..i - 1 + |word|] == text[i..i + |word|];
      ContainsFrom(text[1..], word, i - 1);
    }
  }

  /** `includes` holds exactly when the word occurs at some position of the text. */
  lemma ContainsAt(text: string, word: string)
    ensures Contains(text, word) <==> exists i: nat :: OccursAt(text, word, i)
  {
    if Contains(text, word) {
      var i := ContainsWitness(text, word);
    }
    forall i: nat | OccursAt(text, word, i)
      ensures Contains(text, word)
    {
      ContainsFrom(text, word, i);
    }
  }

  /** The filter of maintenance issues: a non-empty complaint title containing a keyword in any letter case. */
  predicate IsMaintenance(f: Feedback)
  {
    && f.complaint.Some?
    && Present(f.complaint.value.complaintTitle)
    && exists k :: 0 <= k < |KEYWORDS| && Contains(Lower(f.complaint.value.complaintTitle.value), KEYWORDS[k])
  }

  /**
   * A feedback is a maintenance issue exactly when its complaint title is
   * present and, once lower-cased, has one of the keywords at some position.
   */
  lemma MaintenanceIff(f: Feedback)
    ensures IsMaintenance(f) <==>
              && f.complaint.Some? && Present(f.complaint.value.complaintTitle)
              && exists k: nat, i: nat :: k < |KEYWORDS| && OccursAt(Lower(f.complaint.value.complaintTitle.value), KEYWORDS[k], i)
  {
    if f.complaint.Some? && Present(f.complaint.value.complaintTitle) {
      var t := Lower(f.complaint.value.complaintTitle.value);
      forall k | 0 <= k < |KEYWORDS| {
        ContainsAt(t, KEYWORDS[k]);
      }
    }
  }

  /** A title with "BROKEN" in it is reported, whatever the surrounding text. */
  lemma ShoutedKeyword(before: string, after: string, content: Option<string>, at: Option<Instant>, name: Option<string>)
    ensures IsMaintenance(Feedback(Some(Complaint(Some(before + "BROKEN" + after), content)), at, name))
  {
    var title := before + "BROKEN" + after;
    var t := Lower(title);
    assert OccursAt(t, "broken", |before|);
    ContainsFrom(t, KEYWORDS[0], |before|);
  }

  /** A feedback without a complaint title is never a maintenance issue. */
  lemma NoTitleNoIssue(f: Feedback)
    requires f.complaint.None? || !Present(f.complaint.value.complaintTitle)
    ensures !IsMaintenance(f)
  {
  }

  /** The detail line of an issue, with its fallbacks for absent fields. */
  function DetailOf(now: Instant, f: Feedback): (d: Detail)
    ensures !Present(f.clientName) ==> d.reporter == "Anonymous"
    ensures Present(f.clientName) ==> d.reporter == f.clientName.value
    ensures f.createdAt.Some? ==> d.date == f.createdAt.value
    ensures f.createdAt.None? ==> d.date == now
  {
    var title := if f.complaint.Some? then f.complaint.value.complaintTitle else None;
    var content := if f.complaint.Some? then f.complaint.value.complaintContent else None;
    Detail(
      OrElse(title, "No title"),
      OrElse(content, "No description"),
      if f.createdAt.Some? then f.createdAt.value else now,
      OrElse(f.clientName, "Anonymous"))
  }

  /**
   * The detail of a maintenance issue always shows the issue's own title
   * (the "No title" fallback cannot be reached), and "No description" only
   * when the complaint has no content.
   */
  lemma IssueDetail(now: Instant, f: Feedback)
    requires IsMaintenance(f)
    ensures DetailOf(now, f).title == f.complaint.value.complaintTitle.value
    ensures DetailOf(now, f).title != "No title" || f.complaint.value.complaintTitle == Some("No title")
    ensures !Present(f.complaint.value.complaintContent) ==> DetailOf(now, f).description == "No description"
    ensures Present(f.complaint.value.complaintContent) ==>
              DetailOf(now, f).description == f.complaint.value.complaintContent.value
  {
  }

  /**
   * A booking whose start is strictly after thirty days before now. There
   * is no upper bound: a booking that starts in the future counts too.
   */
  predicate Recent(now: Instant, b: Slots.Booking)
  {
    b.period.startFrom > now - THIRTY_DAYS
  }

  /** `laundryUsage` / `saunaUsage`: the number of recent bookings. */
  function Usage(now: Instant, bookings: seq<Slots.Booking>): (n: nat)
    ensures n <= |bookings|
    ensures n == 0 <==> forall i :: 0 <= i < |bookings| ==> !Recent(now, bookings[i])
  {
    var recent := Filter(bookings, b => Recent(now, b));
    assert |recent| > 0 ==> recent[0] in bookings;
    |recent|
  }

  /** Usage adds up over two lists of bookings. */
  lemma UsageAppend(now: Instant, a: seq<Slots.Booking>, b: seq<Slots.Booking>)
    ensures Usage(now, a + b) == Usage(now, a) + Usage(now, b)
  {
    FilterAppend(a, b, x => Recent(now, x));
  }

  /** The window is open at thirty days back: that instant is out, one millisecond later is in. */
  lemma UsageWindowEdge(now: Instant, b: Slots.Booking)
    ensures b.period.startFrom == now - THIRTY_DAYS ==> Usage(now, [b]) == 0
    ensures b.period.startFrom == now - THIRTY_DAYS + 1 ==> Usage(now, [b]) == 1
  {
    assert [b][0] == b;
  }

  /** The usage card's status: more than thirty bookings is high usage. */
  function StatusOf(usage: nat): (s: UsageStatus)
    ensures s == HighUsage <==> usage > 30
  {
    if usage > 30 then HighUsage else Normal
  }

  /** The maintenance issues among the feedbacks, in their original order. */
  function Issues(feedbacks: seq<Feedback>): seq<Feedback>
  {
    Filter(feedbacks, IsMaintenance)
  }

  /**
   * The report list: a maintenance card when at least one issue exists,
   * counting the issues and detailing each in order; then the laundry card;
   * then the sauna card.
   */
  function BuildReports(now: Instant, feedbacks: seq<Feedback>,
                        laundry: seq<Slots.Booking>, sauna: seq<Slots.Booking>): (r: seq<Report>)
    ensures 2 <= |r| <= 3
    ensures |r| == 3 <==> exists i :: 0 <= i < |feedbacks| && IsMaintenance(feedbacks[i])
    ensures |r| == 3 ==>
              && r[0].Maintenance?
              && r[0].count == |r[0].details| == |Issues(feedbacks)|
              && forall i :: 0 <= i < |r[0].details| ==> r[0].details[i] == DetailOf(now, Issues(feedbacks)[i])
    ensures r[|r| - 2] == LaundryUsage(Usage(now, laundry), StatusOf(Usage(now, laundry)))
    ensures r[|r| - 1] == SaunaUsage(Usage(now, sauna), StatusOf(Usage(now, sauna)))
  {
    var issues := Issues(feedbacks);
    var cards := [LaundryUsage(Usage(now, laundry), StatusOf(Usage(now, laundry))),
                  SaunaUsage(Usage(now, sauna), StatusOf(Usage(now, sauna)))];
    if |issues| > 0 then
      assert IsMaintenance(issues[0]) && issues[0] in feedbacks;
      [Maintenance(|issues|, seq(|issues|, i requires 0 <= i < |issues| => DetailOf(now, issues[i])))] + cards
    else
      cards
  }

  /** Exactly thirty recent bookings still read as normal; thirty-one is high usage. */
  lemma ThirtyIsNormal(now: Instant, feedbacks: seq<Feedback>, laundry: seq<Slots.Booking>, sauna: seq<Slots.Booking>)
    requires Usage(now, laundry) == 30 && Usage(now, sauna) == 31
    ensures var r := BuildReports(now, feedbacks, laundry, sauna);
            r[|r| - 2].status == Normal && r[|r| - 1].status == HighUsage
  {
  }
}
