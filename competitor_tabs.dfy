/** `CompetitorTabs`: a column of tabs, one per competitor record, and a
  * panel showing the record of the active tab. The only state is the
  * active index; the displayed record, the tab labels and the pills of the
  * diagnostic snapshot are recomputed from it and the records. */
module Tabs {
  import opened Wrappers
  import opened Flags
  import opened Text
  import opened Decimal
  import opened Competitors

  // ---------------------------------------------------------------------
  // The displayed record

  /** `data[active]`, where JavaScript yields `undefined` past the end. */
  function ActiveCompetitorOf(data: seq<Competitor>, active: nat): (r: Option<Competitor>)
    ensures r.Some? <==> active < |data|
    ensures r.Some? ==> r.value == data[active]
  {
    if active < |data| then Some(data[active]) else None
  }

  // ---------------------------------------------------------------------
  // Which tab is highlighted

  /** `isActive` for tabs `0 .. n-1`: tab `index` is highlighted when `index === active`. */
  function TabFlags(n: nat, active: nat): (r: seq<bool>)
    ensures |r| == n
  {
    if n == 0 then [] else TabFlags(n - 1, active) + [n - 1 == active]
  }

  /** Tab `index` is highlighted exactly when it is the active one. */
  lemma {:induction false} TabFlagsAt(n: nat, active: nat, index: nat)
    requires index < n
    ensures TabFlags(n, active)[index] <==> index == active
  {
    if index < n - 1 {
      TabFlagsAt(n - 1, active, index);
    }
  }

  /** Exactly one tab is highlighted when the active index names a tab, none otherwise. */
  lemma {:induction false} ExactlyOneTabActive(n: nat, active: nat)
    ensures CountTrue(TabFlags(n, active)) == if active < n then 1 else 0
  {
    if n > 0 {
      var flags := TabFlags(n, active);
      ExactlyOneTabActive(n - 1, active);
      assert flags[..n - 1] == TabFlags(n - 1, active);
      assert CountTrue(flags) == CountTrue(TabFlags(n - 1, active)) + if n - 1 == active then 1 else 0;
    }
  }

  // ---------------------------------------------------------------------
  // The tab label: `url.replace("https://", "")`

  const HttpsScheme: string := "https://"

  function TabLabel(url: string): string
  {
    ReplaceFirst(url, HttpsScheme, "")
  }

  /** The label equals the URL exactly when the URL holds no "https://";
    * otherwise it is the URL with the first one cut out, 8 characters shorter. */
  lemma TabLabelSpec(url: string)
    ensures TabLabel(url) == url <==> forall q: nat :: !OccursAt(url, HttpsScheme, q)
    ensures forall i: nat {:trigger OccursAt(url, HttpsScheme, i)} ::
              OccursAt(url, HttpsScheme, i) && (forall q: nat :: q < i ==> !OccursAt(url, HttpsScheme, q)) ==>
              TabLabel(url) == url[..i] + url[i + |HttpsScheme|..] && |TabLabel(url)| == |url| - |HttpsScheme|
  {
    ReplaceFirstSpec(url, HttpsScheme, "");
    match IndexOf(url, HttpsScheme, 0)
    case None =>
    case Some(i) =>
      assert url[..i] + "" + url[i + |HttpsScheme|..] == url[..i] + url[i + |HttpsScheme|..];
      assert |TabLabel(url)| == |url| - |HttpsScheme|;
  }

  /** A URL opening with the scheme loses it, and only it: a second
    * "https://" further on is kept. */
  lemma TabLabelOfHttpsUrl(rest: string)
    ensures TabLabel(HttpsScheme + rest) == rest
  {
    var url := HttpsScheme + rest;
    assert OccursAt(url, HttpsScheme, 0) by {
      assert url[..|HttpsScheme|] == HttpsScheme;
    }
    ReplaceFirstSpec(url, HttpsScheme, "");
    assert url[0 + |HttpsScheme|..] == rest;
  }

  // ---------------------------------------------------------------------
  // The diagnostic snapshot

  /** The "Experience Score" pill: `${score}/100`. */
  function ScorePill(m: Metrics): string
  {
    IntToDecimal(m.score) + "/100"
  }

  /** An optional minus sign followed by at least one digit, read as an integer. */
  function ParseInt(s: string): (r: Option<int>)
  {
    if |s| >= 2 && s[0] == '-' && AllDigits(s[1..]) then Some(-(DigitsValue(s[1..]) as int))
    else if |s| >= 1 && AllDigits(s) then Some(DigitsValue(s))
    else None
  }

  /** Reads a score pill back: the text before a trailing "/100", as an integer. */
  function ReadScorePill(pill: string): (r: Option<int>)
  {
    if |pill| >= 4 && pill[|pill| - 4..] == "/100" then ParseInt(pill[..|pill| - 4]) else None
  }

  /** The score pill ends in "/100" and gives back exactly the score. */
  lemma ScorePillRoundTrip(m: Metrics)
    ensures var pill := ScorePill(m);
            |pill| >= 4 && pill[|pill| - 4..] == "/100" && ReadScorePill(pill) == Some(m.score)
  {
    var digits := IntToDecimal(m.score);
    var pill := ScorePill(m);
    assert pill[..|pill| - 4] == digits && pill[|pill| - 4..] == "/100";
    IntToDecimalRoundTrip(m.score);
    if m.score < 0 {
      assert digits[0] == '-';
      assert !IsDigit(digits[0]);
    }
  }

  /** Different scores give different pills. */
  lemma ScorePillInjective(m1: Metrics, m2: Metrics)
    ensures ScorePill(m1) == ScorePill(m2) ==> m1.score == m2.score
  {
    ScorePillRoundTrip(m1);
    ScorePillRoundTrip(m2);
  }

  /** The "Mobile & SEO" pill: the two notes on two lines. */
  function MobileSeoPill(m: Metrics): string
  {
    m.mobile + "\n" + m.seo
  }

  /** When the mobile note is a single line, the first line break of the pill
    * sits right after it, and the two notes are recovered on either side. */
  lemma MobileSeoPillSplits(m: Metrics)
    requires forall i :: 0 <= i < |m.mobile| ==> m.mobile[i] != '\n'
    ensures var pill := MobileSeoPill(m);
            IndexOf(pill, "\n", 0) == Some(|m.mobile|) &&
            pill[..|m.mobile|] == m.mobile && pill[|m.mobile| + 1..] == m.seo
  {
    var pill := MobileSeoPill(m);
    assert OccursAt(pill, "\n", |m.mobile|) by {
      assert pill[|m.mobile|..|m.mobile| + 1] == "\n";
    }
    forall q: nat | q < |m.mobile| ensures !OccursAt(pill, "\n", q) {
      assert pill[q] == m.mobile[q];
      assert pill[q..q + 1] == [pill[q]];
    }
    assert pill[..|m.mobile|] == m.mobile;
    assert pill[|m.mobile| + 1..] == m.seo;
  }

  // ---------------------------------------------------------------------
  // The component state

  class CompetitorTabs {
    const data: seq<Competitor>
    var active: nat

    /** `active` is only ever 0 or an index of a rendered tab. */
    ghost predicate Valid()
      reads this
    {
      active == 0 || active < |data|
    }

    /** `useState(0)`: the first tab starts active. */
    constructor (data: seq<Competitor>)
      ensures Valid()
      ensures this.data == data && active == 0
    {
      this.data := data;
      active := 0;
    }

    /** The record in the panel, derived from `active` and never stored:
      * present exactly when there is at least one record. */
    function ActiveCompetitor(): (r: Option<Competitor>)
      reads this
      requires Valid()
      ensures r.Some? <==> |data| > 0
      ensures r.Some? ==> r.value == data[active]
    {
      ActiveCompetitorOf(data, active)
    }

    /** The highlight of every tab; exactly one is highlighted unless there are no records. */
    function Highlights(): (r: seq<bool>)
      reads this
      requires Valid()
      ensures |r| == |data|
      ensures forall index :: 0 <= index < |data| ==> (r[index] <==> index == active)
      ensures CountTrue(r) == if |data| > 0 then 1 else 0
    {
      ExactlyOneTabActive(|data|, active);
      forall index | 0 <= index < |data|
        ensures TabFlags(|data|, active)[index] <==> index == active
      {
        TabFlagsAt(|data|, active, index);
      }
      TabFlags(|data|, active)
    }

    /** Clicking tab `index` (only rendered tabs can be clicked) makes it the
      * active one and shows its record; the records are untouched. */
    method Select(index: nat)
      requires Valid() && index < |data|
      modifies this
      ensures Valid()
      ensures active == index
      ensures ActiveCompetitor() == Some(data[index])
    {
      active := index;
    }
  }
}
