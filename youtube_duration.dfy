/** The video-length reading and the "shorts" classification of the highlight
    route (src/app/api/youtube/route.ts): the time part of an ISO 8601 duration
    (ISO 8601:2004, section 4.4.3.2, format with designators, `PT…H…M…S`) read
    into seconds, and the keyword-plus-length rule that marks short-form videos. */
module YoutubeDuration {
  import opened Common
  import opened Numerals

  /** "PT" starts at index j of s. */
  predicate PTAt(s: string, j: int) {
    0 <= j && j + 2 <= |s| && s[j] == 'P' && s[j + 1] == 'T'
  }

  /** The leftmost "PT" at or after index from, if any: where the unanchored pattern matches. */
  function FindPT(s: string, from: nat): (r: Option<nat>)
    requires from <= |s|
    ensures r.Some? ==> from <= r.value && PTAt(s, r.value)
    ensures r.Some? ==> forall j :: from <= j < r.value ==> !PTAt(s, j)
    ensures r.None? ==> forall j :: from <= j ==> !PTAt(s, j)
    decreases |s| - from
  {
    if from + 2 > |s| then None
    else if PTAt(s, from) then Some(from)
    else FindPT(s, from + 1)
  }

  /** One optional group `(?:(\d+)X)?` at index i: taken, with its value and the index after
      the designator, exactly when the longest digit run there is followed by the designator
      (a shorter run is followed by a digit, so backtracking cannot help); skipped otherwise. */
  function Component(s: string, i: nat, designator: char): (r: (nat, nat))
    requires i <= |s|
    ensures i <= r.1 <= |s|
    ensures r.1 == i ==> r.0 == 0
  {
    var n := RunLength(s, i, 10);
    if n > 0 && i + n < |s| && s[i + n] == designator then
      assert AllDigitsIn(s[i..i + n], 10);
      (ValueIn(s[i..i + n], 10), i + n + 1)
    else (0, i)
  }

  /** `parseDuration`: the seconds in `PT[nH][nM][nS]` at the leftmost "PT" of the text,
      each absent group counting 0; 0 when the text holds no "PT". */
  function ParseDuration(s: string): (seconds: nat)
    ensures (forall j :: !PTAt(s, j)) ==> seconds == 0
  {
    match FindPT(s, 0)
    case None => 0
    case Some(k) => ReadGroups(s, k + 2)
  }

  /** The hours, minutes and seconds groups from index i on, in seconds. */
  function ReadGroups(s: string, i: nat): nat
    requires i <= |s|
  {
    var (hours, i1) := Component(s, i, 'H');
    var (minutes, i2) := Component(s, i1, 'M');
    var (secs, _) := Component(s, i2, 'S');
    hours * 3600 + minutes * 60 + secs
  }

  /** The group text for one designator: the decimal count and the designator, or nothing for 0. */
  function Group(n: nat, designator: char): string {
    if n > 0 then Decimal(n) + [designator] else ""
  }

  /** The duration `PT[hH][mM][sS]` in the format the video platform reports, omitting zero groups. */
  function FormatDuration(h: nat, m: nat, s: nat): string {
    "PT" + Group(h, 'H') + Group(m, 'M') + Group(s, 'S')
  }

  /** A group as a duration text may write it: absent, or a non-empty run of decimal digits
      (leading zeros and a zero count allowed) before its designator. */
  datatype WrittenGroup = Absent | Written(digits: string)

  predicate WellWritten(g: WrittenGroup) {
    g.Written? ==> |g.digits| > 0 && AllDigitsIn(g.digits, 10)
  }

  /** The text of a written group for designator d. */
  function GroupText(g: WrittenGroup, d: char): string {
    match g
    case Absent => ""
    case Written(digits) => digits + [d]
  }

  /** The count a written group stands for; an absent group counts 0. */
  function GroupCount(g: WrittenGroup): nat
    requires WellWritten(g)
  {
    match g
    case Absent => 0
    case Written(digits) => ValueIn(digits, 10)
  }

  /** `PT`, then the hours, minutes and seconds groups as written. */
  function WrittenDuration(gh: WrittenGroup, gm: WrittenGroup, gs: WrittenGroup): string {
    "PT" + GroupText(gh, 'H') + GroupText(gm, 'M') + GroupText(gs, 'S')
  }

  /** The digits of a written group for designator d at index i form the whole digit run
      there, and d follows them. */
  lemma WrittenRun(text: string, i: nat, digits: string, d: char)
    requires |digits| > 0 && AllDigitsIn(digits, 10) && !IsDigitIn(d, 10)
    requires i + |digits| + 1 <= |text| && text[i..i + |digits| + 1] == digits + [d]
    ensures RunLength(text, i, 10) == |digits|
    ensures text[i..i + |digits|] == digits && text[i + |digits|] == d
  {
    var g := digits + [d];
    assert text[i..i + |digits|] == text[i..i + |g|][..|digits|] == g[..|digits|] == digits;
    assert text[i + |digits|] == g[|digits|] == d;
    RunLengthOf(text, i, digits, 10);
  }

  /** At the start of a written group for designator d, the optional group for d is taken,
      with the group's count. */
  lemma GroupTaken(text: string, i: nat, digits: string, d: char)
    requires |digits| > 0 && AllDigitsIn(digits, 10) && !IsDigitIn(d, 10)
    requires i + |digits| + 1 <= |text| && text[i..i + |digits| + 1] == digits + [d]
    ensures Component(text, i, d) == (ValueIn(digits, 10), i + |digits| + 1)
  {
    WrittenRun(text, i, digits, d);
    ComponentTaken(text, i, d);
    var n := RunLength(text, i, 10);
    assert text[i..i + n] == digits;
    assert ValueIn(text[i..i + n], 10) == ValueIn(digits, 10);
  }

  /** The optional group for d at index i is taken when a digit run there is followed by d. */
  lemma ComponentTaken(s: string, i: nat, d: char)
    requires i <= |s|
    requires var n := RunLength(s, i, 10); n > 0 && i + n < |s| && s[i + n] == d
    ensures var n := RunLength(s, i, 10);
      AllDigitsIn(s[i..i + n], 10) && Component(s, i, d) == (ValueIn(s[i..i + n], 10), i + n + 1)
  {
  }

  /** At the start of a written group for designator d, the optional group for any other
      designator is skipped. */
  lemma GroupSkipped(text: string, i: nat, digits: string, d: char, e: char)
    requires |digits| > 0 && AllDigitsIn(digits, 10) && !IsDigitIn(d, 10) && e != d
    requires i + |digits| + 1 <= |text| && text[i..i + |digits| + 1] == digits + [d]
    ensures Component(text, i, e) == (0, i)
  {
    WrittenRun(text, i, digits, d);
  }

  /** A group for e that starts at index i makes the optional group for d there absent. */
  lemma NextGroupSkipped(text: string, i: nat, digits: string, e: char, d: char)
    requires |digits| > 0 && AllDigitsIn(digits, 10) && e in "HMS" && e != d
    requires i <= |text| && digits + [e] <= text[i..]
    ensures Component(text, i, d) == (0, i)
  {
    var t := digits + [e];
    assert text[i..][..|t|] == t;
    assert text[i..i + |t|] == t;
    GroupSkipped(text, i, digits, e, d);
  }

  /** A text that starts with "PT" is read from its groups after the "PT". */
  lemma ParseFromStart(text: string)
    requires PTAt(text, 0)
    ensures ParseDuration(text) == ReadGroups(text, 2)
  {
    assert FindPT(text, 0) == Some(0);
  }

  /** Where the groups sit in a written duration: "PT", then the hours group from index 2,
      the minutes group from i1, the seconds group from i2 to the end. */
  lemma WrittenLayout(gh: WrittenGroup, gm: WrittenGroup, gs: WrittenGroup, i1: nat, i2: nat)
    requires i1 == 2 + |GroupText(gh, 'H')| && i2 == i1 + |GroupText(gm, 'M')|
    ensures var text := WrittenDuration(gh, gm, gs);
      && PTAt(text, 0)
      && |text| == i2 + |GroupText(gs, 'S')|
      && text[2..i1] == GroupText(gh, 'H')
      && text[i1..i2] == GroupText(gm, 'M')
      && text[i2..] == GroupText(gs, 'S')
  {
    var text := WrittenDuration(gh, gm, gs);
    var a, b, c := GroupText(gh, 'H'), GroupText(gm, 'M'), GroupText(gs, 'S');
    var head := "PT" + a;
    assert text == head + (b + c);
    assert text[..i1] == head;
    assert text[2..i1] == head[2..] == a;
    assert text[i1..] == b + c;
    assert text[i1..][..i2 - i1] == text[i1..i2];
    assert text[i1..][i2 - i1..] == text[i2..];
  }

  lemma HoursGroup(gh: WrittenGroup, gm: WrittenGroup, gs: WrittenGroup, i1: nat, i2: nat)
    requires WellWritten(gh) && WellWritten(gm) && WellWritten(gs)
    requires i1 == 2 + |GroupText(gh, 'H')| && i2 == i1 + |GroupText(gm, 'M')|
    ensures Component(WrittenDuration(gh, gm, gs), 2, 'H') == (GroupCount(gh), i1)
  {
    var text := WrittenDuration(gh, gm, gs);
    WrittenLayout(gh, gm, gs, i1, i2);
    if gh.Written? {
      GroupTaken(text, 2, gh.digits, 'H');
    } else if gm.Written? {
      assert text[2..i2] <= text[2..];
      NextGroupSkipped(text, 2, gm.digits, 'M', 'H');
    } else if gs.Written? {
      NextGroupSkipped(text, 2, gs.digits, 'S', 'H');
    }
  }

  lemma MinutesGroup(gh: WrittenGroup, gm: WrittenGroup, gs: WrittenGroup, i1: nat, i2: nat)
    requires WellWritten(gh) && WellWritten(gm) && WellWritten(gs)
    requires i1 == 2 + |GroupText(gh, 'H')| && i2 == i1 + |GroupText(gm, 'M')|
    ensures Component(WrittenDuration(gh, gm, gs), i1, 'M') == (GroupCount(gm), i2)
  {
    var text := WrittenDuration(gh, gm, gs);
    WrittenLayout(gh, gm, gs, i1, i2);
    if gm.Written? {
      GroupTaken(text, i1, gm.digits, 'M');
    } else if gs.Written? {
      NextGroupSkipped(text, i1, gs.digits, 'S', 'M');
    }
  }

  lemma SecondsGroup(gh: WrittenGroup, gm: WrittenGroup, gs: WrittenGroup, i1: nat, i2: nat)
    requires WellWritten(gh) && WellWritten(gm) && WellWritten(gs)
    requires i1 == 2 + |GroupText(gh, 'H')| && i2 == i1 + |GroupText(gm, 'M')|
    ensures i2 <= |WrittenDuration(gh, gm, gs)|
    ensures Component(WrittenDuration(gh, gm, gs), i2, 'S').0 == GroupCount(gs)
  {
    var text := WrittenDuration(gh, gm, gs);
    WrittenLayout(gh, gm, gs, i1, i2);
    if gs.Written? {
      GroupTaken(text, i2, gs.digits, 'S');
    }
  }

  /** Reading `PT[hH][mM][sS]` with each group absent or written as any run of decimal digits
      (leading zeros and zero counts included) gives `h*3600 + m*60 + s`: `PT0H1M05S` is 65. */
  lemma ParseWritten(gh: WrittenGroup, gm: WrittenGroup, gs: WrittenGroup)
    requires WellWritten(gh) && WellWritten(gm) && WellWritten(gs)
    ensures ParseDuration(WrittenDuration(gh, gm, gs))
      == GroupCount(gh) * 3600 + GroupCount(gm) * 60 + GroupCount(gs)
  {
    ParseFromStart(WrittenDuration(gh, gm, gs));
    ReadWritten(gh, gm, gs);
  }

  /** The three groups of a written duration, read after its "PT". */
  lemma ReadWritten(gh: WrittenGroup, gm: WrittenGroup, gs: WrittenGroup)
    requires WellWritten(gh) && WellWritten(gm) && WellWritten(gs)
    ensures ReadGroups(WrittenDuration(gh, gm, gs), 2)
      == GroupCount(gh) * 3600 + GroupCount(gm) * 60 + GroupCount(gs)
  {
    var i1 := 2 + |GroupText(gh, 'H')|;
    var i2 := i1 + |GroupText(gm, 'M')|;
    HoursGroup(gh, gm, gs, i1, i2);
    MinutesGroup(gh, gm, gs, i1, i2);
    SecondsGroup(gh, gm, gs, i1, i2);
  }

  /** A count as the platform writes it: its decimal text, or nothing for 0. */
  function Canonical(n: nat): (g: WrittenGroup)
    ensures WellWritten(g) && GroupCount(g) == n
  {
    DecimalValue(n);
    if n > 0 then Written(Decimal(n)) else Absent
  }

  /** Reading the text of a duration gives back its length in seconds: `PT1M30S` is 90. */
  lemma ParseFormatted(h: nat, m: nat, s: nat)
    ensures ParseDuration(FormatDuration(h, m, s)) == h * 3600 + m * 60 + s
  {
    assert FormatDuration(h, m, s) == WrittenDuration(Canonical(h), Canonical(m), Canonical(s));
    ParseWritten(Canonical(h), Canonical(m), Canonical(s));
  }

  /** Zero groups written out and leading zeros: `PT0H1M05S` is 65 seconds. */
  lemma ParseWithZeros()
    ensures ParseDuration("PT0H1M05S") == 65
  {
    assert AllDigitsIn("05", 10);
    ZerosText();
    ParseWritten(Written("0"), Written("1"), Written("05"));
  }

  /** The groups `0H`, `1M` and `05S` after "PT" spell the example text. */
  lemma ZerosText()
    ensures WrittenDuration(Written("0"), Written("1"), Written("05")) == "PT0H1M05S"
  {
  }

  /** PT at index j of t is PT at index |pre| + j of pre + t. */
  lemma PTShift(pre: string, t: string, j: nat)
    ensures PTAt(pre + t, |pre| + j) <==> PTAt(t, j)
  {
    if j + 2 <= |t| {
      assert (pre + t)[|pre| + j] == t[j] && (pre + t)[|pre| + j + 1] == t[j + 1];
    }
  }

  /** A digit run depends only on the text from its start on. */
  lemma {:induction false} RunLengthSuffix(s: string, i: nat, t: string, j: nat)
    requires i <= |s| && j <= |t| && s[i..] == t[j..]
    ensures RunLength(s, i, 10) == RunLength(t, j, 10)
    decreases |s| - i
  {
    if i < |s| {
      assert s[i] == s[i..][0] == t[j..][0] == t[j];
      assert s[i + 1..] == s[i..][1..] == t[j..][1..] == t[j + 1..];
      RunLengthSuffix(s, i + 1, t, j + 1);
    }
  }

  /** Reading a group depends only on the text from its start on, and leaves equal texts
      after it. */
  lemma ComponentSuffix(s: string, i: nat, t: string, j: nat, d: char)
    requires i <= |s| && j <= |t| && s[i..] == t[j..]
    ensures Component(s, i, d).0 == Component(t, j, d).0
    ensures Component(s, i, d).1 - i == Component(t, j, d).1 - j
    ensures s[Component(s, i, d).1..] == t[Component(t, j, d).1..]
  {
    RunLengthSuffix(s, i, t, j);
    var n := RunLength(s, i, 10);
    if n > 0 && i + n < |s| {
      assert s[i + n] == s[i..][n] == t[j..][n] == t[j + n];
      assert s[i..i + n] == s[i..][..n] == t[j..][..n] == t[j..j + n];
      assert s[i + n + 1..] == s[i..][n + 1..] == t[j..][n + 1..] == t[j + n + 1..];
    }
  }

  /** Reading the three groups depends only on the text from their start on. */
  lemma ReadGroupsSuffix(s: string, i: nat, t: string, j: nat)
    requires i <= |s| && j <= |t| && s[i..] == t[j..]
    ensures ReadGroups(s, i) == ReadGroups(t, j)
  {
    ComponentSuffix(s, i, t, j, 'H');
    var i1, j1 := Component(s, i, 'H').1, Component(t, j, 'H').1;
    ComponentSuffix(s, i1, t, j1, 'M');
    var i2, j2 := Component(s, i1, 'M').1, Component(t, j1, 'M').1;
    ComponentSuffix(s, i2, t, j2, 'S');
  }

  /** The pattern is not anchored: text before the first "PT" is skipped, so a prefix in
      which no "PT" starts (also not across its end) leaves the length unchanged. */
  lemma ParseAfterPrefix(pre: string, t: string)
    requires forall j :: 0 <= j < |pre| ==> !PTAt(pre + t, j)
    ensures ParseDuration(pre + t) == ParseDuration(t)
  {
    var s := pre + t;
    match FindPT(t, 0)
    case None =>
      forall j | 0 <= j
        ensures !PTAt(s, j)
      {
        if j >= |pre| {
          PTShift(pre, t, j - |pre|);
        }
      }
    case Some(k) =>
      PTShift(pre, t, k);
      var r := FindPT(s, 0);
      if r.Some? && r.value != |pre| + k {
        var v := r.value;
        if v < |pre| + k {
          PTShift(pre, t, v - |pre|);
        }
        assert false;
      }
      assert r == Some(|pre| + k);
      assert s[|pre| + k + 2..] == t[k + 2..];
      ReadGroupsSuffix(s, |pre| + k + 2, t, k + 2);
  }

  /** `isShorts`: the lower-cased title contains "#shorts" or "shorts", or the lower-cased
      description contains "#shorts", or the length is more than 0 and at most 60 seconds. A
      missing title, description or duration counts as the empty text. */
  function IsShorts(title: Option<string>, description: Option<string>, duration: Option<string>): bool {
    var t := Lower(title.GetOr(""));
    var d := Lower(description.GetOr(""));
    var hasShortsKeyword := Contains(t, "#shorts") || Contains(t, "shorts") || Contains(d, "#shorts");
    var seconds := ParseDuration(duration.GetOr(""));
    hasShortsKeyword || (seconds > 0 && seconds <= 60)
  }

  /** The rule without its redundant clause: a title containing "#shorts" already contains
      "shorts", while the description needs the "#". */
  lemma {:induction false} ShortsRule(title: Option<string>, description: Option<string>, duration: Option<string>)
    ensures IsShorts(title, description, duration) <==>
      || Contains(Lower(title.GetOr("")), "shorts")
      || Contains(Lower(description.GetOr("")), "#shorts")
      || 0 < ParseDuration(duration.GetOr("")) <= 60
  {
    var t := Lower(title.GetOr(""));
    if Contains(t, "#shorts") {
      assert "#shorts" == "#" + "shorts";
      ContainsSuffix(t, "#", "shorts");
    }
  }

  /** A missing duration reads as 0 seconds and so never makes a video short by length. */
  lemma MissingDurationNeverShort(title: Option<string>, description: Option<string>)
    ensures IsShorts(title, description, None) ==
      (Contains(Lower(title.GetOr("")), "#shorts") || Contains(Lower(title.GetOr("")), "shorts")
       || Contains(Lower(description.GetOr("")), "#shorts"))
  {
    assert !PTAt("", 0);
  }

  /** The length rule at its edge: exactly 60 seconds is short, 61 is not. */
  lemma SixtySecondsEdge()
    ensures IsShorts(None, None, Some(FormatDuration(0, 0, 60)))
    ensures IsShorts(None, None, Some(FormatDuration(0, 1, 0)))
    ensures !IsShorts(None, None, Some(FormatDuration(0, 0, 61)))
    ensures !IsShorts(None, None, Some(FormatDuration(0, 1, 1)))
  {
    ParseFormatted(0, 0, 60);
    ParseFormatted(0, 1, 0);
    ParseFormatted(0, 0, 61);
    ParseFormatted(0, 1, 1);
    NotContainsLonger("", "shorts");
    NotContainsLonger("", "#shorts");
  }

  /** "shorts" in the description without the "#" does not make a video short. */
  lemma DescriptionNeedsHash()
    ensures !IsShorts(None, Some("Shorts"), None)
    ensures IsShorts(None, Some("#Shorts"), None)
    ensures IsShorts(Some("Best SHORTS"), None, None)
  {
    assert Lower("Shorts") == "shorts";
    assert Lower("#Shorts") == "#shorts";
    assert Lower("Best SHORTS") == "best shorts";
    NotContainsFirst("shorts", "#shorts");
    NotContainsLonger("", "shorts");
    NotContainsLonger("", "#shorts");
    assert "shorts" <= "best shorts"[5..];
    ContainsAtIndex("best shorts", "shorts", 5);
    assert "#shorts" <= "#shorts";
    assert !PTAt("", 0);
  }
}
