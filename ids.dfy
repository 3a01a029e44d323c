/**
 * Reading the video and person ids out of a trajectory id. HR-Crime ids are
 * searched for `(\d+)_(\d+)`, UTK ids for `_(\w+)_(\w+)` (the first character
 * of each group is dropped), every dataset whose name contains "NTU" gets the
 * constant ids 1 and 1, and the person id is converted with `int()`.
 * A search is modelled as Python's `re` performs it: the leftmost start
 * position wins, and at that position the greedy groups backtrack from the
 * longest first group down.
 */
module TrajectoryIds {
  import opened PyOps

  /** A successful `re.search`: where the match starts and its two groups. */
  datatype Match = Match(start: nat, group1: string, group2: string)

  predicate AllWord(s: string) { forall i :: 0 <= i < |s| ==> IsWordChar(s[i]) }

  /** `(\d+)_(\d+)` matches `s` at `i` with groups `g1` and `g2`: `s[i:]` starts with `g1 + "_" + g2`. */
  predicate HrMatchesAt(s: string, i: nat, g1: string, g2: string) {
    && g1 != [] && AllDigits(g1) && g2 != [] && AllDigits(g2)
    && i + |g1| + 1 + |g2| <= |s|
    && s[i..i + |g1|] == g1
    && s[i + |g1|] == '_'
    && s[i + |g1| + 1..i + |g1| + 1 + |g2|] == g2
  }

  /** `_(\w+)_(\w+)` matches `s` at `i` with groups `g1` and `g2`: `s[i:]` starts with `"_" + g1 + "_" + g2`. */
  predicate UtkMatchesAt(s: string, i: nat, g1: string, g2: string) {
    && g1 != [] && AllWord(g1) && g2 != [] && AllWord(g2)
    && i + |g1| + |g2| + 2 <= |s|
    && s[i] == '_'
    && s[i + 1..i + 1 + |g1|] == g1
    && s[i + 1 + |g1|] == '_'
    && s[i + |g1| + 2..i + |g1| + 2 + |g2|] == g2
  }

  /** The end of the longest run of characters satisfying `p` from position `i`. */
  function RunEnd(s: string, i: nat, p: char -> bool): (j: nat)
    requires i <= |s|
    ensures i <= j <= |s|
    ensures forall k :: i <= k < j ==> p(s[k])
    ensures j == |s| || !p(s[j])
    decreases |s| - i
  {
    if i < |s| && p(s[i]) then RunEnd(s, i + 1, p) else i
  }

  /** The position of the last underscore in `s[lo..hi]`, if there is one. */
  function LastUnderscore(s: string, lo: int, hi: int): (r: Option<nat>)
    requires 0 <= lo && hi <= |s|
    ensures r.Some? ==> lo <= r.value < hi && s[r.value] == '_'
    ensures r.Some? ==> forall k :: r.value < k < hi ==> s[k] != '_'
    ensures r.None? ==> forall k :: lo <= k < hi ==> s[k] != '_'
    decreases hi - lo
  {
    if hi <= lo then None
    else if s[hi - 1] == '_' then Some(hi - 1)
    else LastUnderscore(s, lo, hi - 1)
  }

  /** `(\d+)_(\d+)` tried at position `i`: the first run of digits must be followed by `_` and a digit. */
  function HrMatchAt(s: string, i: nat): Option<Match> {
    if i > |s| then None
    else
      var j := RunEnd(s, i, IsDigit);
      if i < j && j + 1 < |s| && s[j] == '_' && IsDigit(s[j + 1]) then
        Some(Match(i, s[i..j], s[j + 1..RunEnd(s, j + 1, IsDigit)]))
      else None
  }

  /** `_(\w+)_(\w+)` tried at position `i`: the first group backtracks to the last underscore of the
      word run that still leaves a non-empty second group. */
  function UtkMatchAt(s: string, i: nat): Option<Match> {
    if i < |s| && s[i] == '_' then
      var j := RunEnd(s, i + 1, IsWordChar);
      var k := LastUnderscore(s, i + 2, j - 1);
      if k.Some? then Some(Match(i, s[i + 1..k.value], s[k.value + 1..j])) else None
    else None
  }

  /** The first position from `i` on where `at` matches: the scan `re.search` performs. */
  function FirstHit(s: string, at: (string, nat) -> Option<Match>, i: nat): (k: Option<nat>)
    ensures k.Some? ==> i <= k.value <= |s| && at(s, k.value).Some?
    ensures k.Some? ==> forall n :: i <= n < k.value ==> at(s, n).None?
    ensures k.None? ==> forall n :: i <= n <= |s| ==> at(s, n).None?
    decreases |s| + 1 - i
  {
    if i > |s| then None
    else if at(s, i).Some? then Some(i)
    else FirstHit(s, at, i + 1)
  }

  function Search(s: string, at: (string, nat) -> Option<Match>): Option<Match> {
    var k := FirstHit(s, at, 0);
    if k.Some? then at(s, k.value) else None
  }

  /** `re.search(r"(\d+)_(\d+)", s)`: whatever it returns is a match of the pattern. */
  function HrSearch(s: string): (r: Option<Match>)
    ensures r.Some? ==> HrMatchesAt(s, r.value.start, r.value.group1, r.value.group2)
  {
    Search(s, HrMatchAt)
  }

  /** `re.search(r"_(\w+)_(\w+)", s)`: whatever it returns is a match of the pattern. */
  function UtkSearch(s: string): (r: Option<Match>)
    ensures r.Some? ==> UtkMatchesAt(s, r.value.start, r.value.group1, r.value.group2)
  {
    Search(s, UtkMatchAt)
  }

  /** At one position, the digit scanner finds a match exactly when the pattern matches there,
      and then the one the regex engine picks: the only possible first group and the longest second. */
  lemma HrMatchAtSpec(s: string, i: nat)
    ensures HrMatchAt(s, i).Some? ==>
      var m := HrMatchAt(s, i).value;
      && m.start == i
      && HrMatchesAt(s, i, m.group1, m.group2)
      && forall g1, g2 :: HrMatchesAt(s, i, g1, g2) ==> g1 == m.group1 && |g2| <= |m.group2|
    ensures HrMatchAt(s, i).None? ==> forall g1, g2 :: !HrMatchesAt(s, i, g1, g2)
  {
    forall g1, g2 | HrMatchesAt(s, i, g1, g2)
      ensures HrMatchAt(s, i).Some?
      ensures g1 == HrMatchAt(s, i).value.group1 && |g2| <= |HrMatchAt(s, i).value.group2|
    {
      var j := RunEnd(s, i, IsDigit);
      var u := i + |g1|;
      assert forall k :: i <= k < u ==> IsDigit(s[k]) by {
        forall k | i <= k < u ensures IsDigit(s[k]) { assert s[k] == g1[k - i]; }
      }
      assert j == u;
      assert s[u + 1] == g2[0];
      var e := RunEnd(s, u + 1, IsDigit);
      assert forall k :: u + 1 <= k < u + 1 + |g2| ==> IsDigit(s[k]) by {
        forall k | u + 1 <= k < u + 1 + |g2| ensures IsDigit(s[k]) { assert s[k] == g2[k - u - 1]; }
      }
      assert e >= u + 1 + |g2|;
    }
    var m := HrMatchAt(s, i);
    if m.Some? {
      var j := RunEnd(s, i, IsDigit);
      var e := RunEnd(s, j + 1, IsDigit);
      assert m.value.group1 == s[i..j];
      assert m.value.group2 == s[j + 1..e];
    }
  }

  /** Any match of `_(\w+)_(\w+)` at `i` is found by the word scanner, whose first group is at least as
      long, and whose second group is at least as long when the first groups agree. */
  lemma UtkMatchAtComplete(s: string, i: nat, g1: string, g2: string)
    requires UtkMatchesAt(s, i, g1, g2)
    ensures UtkMatchAt(s, i).Some?
    ensures |g1| < |UtkMatchAt(s, i).value.group1|
      || (g1 == UtkMatchAt(s, i).value.group1 && |g2| <= |UtkMatchAt(s, i).value.group2|)
  {
    var j := RunEnd(s, i + 1, IsWordChar);
    var u := i + 1 + |g1|;
    var e := u + 1 + |g2|;
    assert forall k :: i + 1 <= k < e ==> IsWordChar(s[k]) by {
      forall k | i + 1 <= k < e ensures IsWordChar(s[k]) {
        if k < u { assert s[k] == g1[k - i - 1]; }
        else if k > u { assert s[k] == g2[k - u - 1]; }
      }
    }
    assert j >= e;
    var k := LastUnderscore(s, i + 2, j - 1);
    assert s[u] == '_';
    assert k.Some? && k.value >= u;
    if k.value == u {
      assert g1 == s[i + 1..u];
    }
  }

  /** What the word scanner returns is a match of `_(\w+)_(\w+)` at `i`. */
  lemma UtkMatchAtSound(s: string, i: nat)
    requires UtkMatchAt(s, i).Some?
    ensures UtkMatchAt(s, i).value.start == i
    ensures UtkMatchesAt(s, i, UtkMatchAt(s, i).value.group1, UtkMatchAt(s, i).value.group2)
  {
    var j := RunEnd(s, i + 1, IsWordChar);
    var k := LastUnderscore(s, i + 2, j - 1).value;
    var g1, g2 := s[i + 1..k], s[k + 1..j];
    assert UtkMatchAt(s, i).value == Match(i, g1, g2);
    assert AllWord(g1) by {
      forall n | 0 <= n < |g1| ensures IsWordChar(g1[n]) { assert g1[n] == s[i + 1 + n]; }
    }
    assert AllWord(g2) by {
      forall n | 0 <= n < |g2| ensures IsWordChar(g2[n]) { assert g2[n] == s[k + 1 + n]; }
    }
  }

  /** At one position, the word scanner finds a match exactly when the pattern matches there, and
      then the one backtracking reaches first: the longest first group, then the longest second. */
  lemma UtkMatchAtSpec(s: string, i: nat)
    ensures UtkMatchAt(s, i).Some? ==>
      var m := UtkMatchAt(s, i).value;
      && m.start == i
      && UtkMatchesAt(s, i, m.group1, m.group2)
      && forall g1, g2 :: UtkMatchesAt(s, i, g1, g2) ==>
           |g1| < |m.group1| || (g1 == m.group1 && |g2| <= |m.group2|)
    ensures UtkMatchAt(s, i).None? ==> forall g1, g2 :: !UtkMatchesAt(s, i, g1, g2)
  {
    forall g1, g2 | UtkMatchesAt(s, i, g1, g2)
      ensures UtkMatchAt(s, i).Some?
      ensures |g1| < |UtkMatchAt(s, i).value.group1|
        || (g1 == UtkMatchAt(s, i).value.group1 && |g2| <= |UtkMatchAt(s, i).value.group2|)
    {
      UtkMatchAtComplete(s, i, g1, g2);
    }
    if UtkMatchAt(s, i).Some? {
      UtkMatchAtSound(s, i);
    }
  }

  /** `re.search(r"(\d+)_(\d+)", s)` finds the leftmost match, with the groups the engine picks there,
      and finds none exactly when the pattern matches nowhere. */
  lemma HrSearchSpec(s: string)
    ensures HrSearch(s).Some? ==>
      var m := HrSearch(s).value;
      && HrMatchesAt(s, m.start, m.group1, m.group2)
      && (forall i: nat, g1, g2 :: i < m.start ==> !HrMatchesAt(s, i, g1, g2))
      && (forall g1, g2 :: HrMatchesAt(s, m.start, g1, g2) ==> g1 == m.group1 && |g2| <= |m.group2|)
    ensures HrSearch(s).None? ==> forall i: nat, g1, g2 :: !HrMatchesAt(s, i, g1, g2)
  {
    var k := FirstHit(s, HrMatchAt, 0);
    forall i: nat, g1, g2 | k.None? || i < k.value
      ensures !HrMatchesAt(s, i, g1, g2)
    {
      HrMatchAtSpec(s, i);
    }
    if k.Some? {
      HrMatchAtSpec(s, k.value);
    }
  }

  /** `re.search(r"_(\w+)_(\w+)", s)` finds the leftmost match, with the groups backtracking reaches
      first there, and finds none exactly when the pattern matches nowhere. */
  lemma UtkSearchSpec(s: string)
    ensures UtkSearch(s).Some? ==>
      var m := UtkSearch(s).value;
      && UtkMatchesAt(s, m.start, m.group1, m.group2)
      && (forall i: nat, g1, g2 :: i < m.start ==> !UtkMatchesAt(s, i, g1, g2))
      && (forall g1, g2 :: UtkMatchesAt(s, m.start, g1, g2) ==>
            |g1| < |m.group1| || (g1 == m.group1 && |g2| <= |m.group2|))
    ensures UtkSearch(s).None? ==> forall i: nat, g1, g2 :: !UtkMatchesAt(s, i, g1, g2)
  {
    var k := FirstHit(s, UtkMatchAt, 0);
    forall i: nat, g1, g2 | k.None? || i < k.value
      ensures !UtkMatchesAt(s, i, g1, g2)
    {
      UtkMatchAtSpec(s, i);
    }
    if k.Some? {
      UtkMatchAtSpec(s, k.value);
    }
  }

  /** A digit-free prefix followed by `a_b` with digit groups: the search returns exactly `a` and `b`. */
  lemma HrGroupsOf(w: string, a: string, b: string)
    requires forall i :: 0 <= i < |w| ==> !IsDigit(w[i])
    requires a != [] && AllDigits(a) && b != [] && AllDigits(b)
    ensures HrSearch(w + a + "_" + b) == Some(Match(|w|, a, b))
  {
    var s := w + a + "_" + b;
    assert HrMatchesAt(s, |w|, a, b) by {
      assert s[|w|..|w| + |a|] == a;
      assert s[|w| + |a| + 1..|w| + |a| + 1 + |b|] == b;
    }
    HrSearchSpec(s);
    var m := HrSearch(s).value;
    assert s[m.start] == m.group1[0];
    assert m.start == |w|;
    assert m.group2 == b by {
      assert |m.group2| == |b|;
      assert m.group2 == s[|w| + |a| + 1..|w| + |a| + 1 + |b|];
    }
  }

  /** `w + "_" + a + "_" + b` matches `_(\w+)_(\w+)` right after `w`, with groups `a` and `b`. */
  lemma UtkIdMatches(w: string, a: string, b: string)
    requires a != [] && AllWord(a) && b != [] && AllWord(b)
    ensures UtkMatchesAt(w + "_" + a + "_" + b, |w|, a, b)
  {
    var s := w + "_" + a + "_" + b;
    var u := |w| + 1 + |a|;
    assert s[|w| + 1..u] == a;
    assert s[u + 1..u + 1 + |b|] == b;
  }

  /** In such an id no match starts inside the underscore-free prefix `w`. */
  lemma UtkIdStart(w: string, a: string, b: string, i: nat, g1: string, g2: string)
    requires '_' !in w && i <= |w|
    requires UtkMatchesAt(w + "_" + a + "_" + b, i, g1, g2)
    ensures i == |w|
  {
  }

  /** A match at `|w|` whose first group is at least `a` is `a`, `b` itself when `b` has no underscore. */
  lemma UtkIdGroups(w: string, a: string, b: string, g1: string, g2: string)
    requires '_' !in b
    requires UtkMatchesAt(w + "_" + a + "_" + b, |w|, g1, g2)
    requires |a| < |g1| || (g1 == a && |b| <= |g2|)
    ensures g1 == a && g2 == b
  {
    var s := w + "_" + a + "_" + b;
    var u := |w| + 1 + |a|;
    if |a| < |g1| {
      assert false;
    }
    assert g2 == s[u + 1..u + 1 + |g2|];
    assert |g2| == |b|;
    assert s[u + 1..u + 1 + |b|] == b;
  }

  /** An underscore-free prefix followed by `_a_b`, where `b` has no underscore: the search returns
      exactly `a` and `b`, however many underscores `a` holds. */
  lemma UtkGroupsOf(w: string, a: string, b: string)
    requires '_' !in w
    requires a != [] && AllWord(a) && b != [] && AllWord(b) && '_' !in b
    ensures UtkSearch(w + "_" + a + "_" + b) == Some(Match(|w|, a, b))
  {
    var s := w + "_" + a + "_" + b;
    UtkIdMatches(w, a, b);
    UtkSearchSpec(s);
    var m := UtkSearch(s).value;
    assert m.start <= |w|;
    UtkIdStart(w, a, b, m.start, m.group1, m.group2);
    UtkIdGroups(w, a, b, m.group1, m.group2);
  }

  /** A video id as `np.full` stores it: the matched text, or the integer placeholder. */
  datatype VideoId = VideoText(text: string) | VideoNumber(number: int)

  datatype ParsedIds = ParsedIds(video: VideoId, person: int)

  /** How the parsing raises: `None.group` (AttributeError), `int()` (ValueError), or an unbound
      `video_id` for a dataset no branch names (UnboundLocalError). */
  datatype IdError = NoMatch | NotAnInteger | UnknownDataset

  /** Lines `if dataset == "HR-Crime": … int(person_id)` of `_extract_fixed_sized_segments`. A parsed
      person id is never negative, and only the NTU placeholder gives a numeric video id. */
  function ParseIds(dataset: string, id: string): (r: Result<ParsedIds, IdError>)
    ensures r.Ok? ==> r.value.person >= 0
    ensures r.Ok? ==> (r.value.video.VideoNumber? <==> dataset != "HR-Crime" && dataset != "UTK")
  {
    if dataset == "HR-Crime" then
      var m := HrSearch(id);
      if m.None? then Err(NoMatch)
      else
        var person := ParseInt(m.value.group2);
        if person.None? then Err(NotAnInteger)
        else Ok(ParsedIds(VideoText(m.value.group1), person.value))
    else if dataset == "UTK" then
      var m := UtkSearch(id);
      if m.None? then Err(NoMatch)
      else
        var person := ParseInt(m.value.group2[1..]);
        if person.None? then Err(NotAnInteger)
        else Ok(ParsedIds(VideoText(m.value.group1[1..]), person.value))
    else if HasSubstring(dataset, "NTU") then Ok(ParsedIds(VideoNumber(1), 1))
    else Err(UnknownDataset)
  }

  /** Which ids and dataset names make the parsing raise, and how. */
  lemma ParseIdsErrors(dataset: string, id: string)
    ensures ParseIds(dataset, id) == Err(UnknownDataset) <==>
      dataset != "HR-Crime" && dataset != "UTK" && !exists i :: OccursAt(dataset, "NTU", i)
    ensures dataset == "HR-Crime" ==>
      (ParseIds(dataset, id) == Err(NoMatch) <==> forall i: nat, g1, g2 :: !HrMatchesAt(id, i, g1, g2))
    ensures dataset == "HR-Crime" ==> ParseIds(dataset, id) != Err(NotAnInteger)
    ensures dataset == "UTK" ==>
      (ParseIds(dataset, id) == Err(NoMatch) <==> forall i: nat, g1, g2 :: !UtkMatchesAt(id, i, g1, g2))
    ensures dataset == "UTK" ==>
      (ParseIds(dataset, id) == Err(NotAnInteger) <==>
         UtkSearch(id).Some? && !IntLiteral(UtkSearch(id).value.group2[1..]))
    ensures (exists i :: OccursAt(dataset, "NTU", i)) && dataset != "HR-Crime" && dataset != "UTK" ==>
      ParseIds(dataset, id) == Ok(ParsedIds(VideoNumber(1), 1))
  {
    HasSubstringIff(dataset, "NTU");
    if dataset == "HR-Crime" {
      HrSearchSpec(id);
      var m := HrSearch(id);
      if m.Some? {
        ParseIntOfDigits(m.value.group2);
      }
    } else if dataset == "UTK" {
      UtkSearchSpec(id);
    }
  }

  /** The HR-Crime branch reads back the numbers an id was built from. */
  lemma HrCrimeIdsRoundTrip(w: string, video: nat, person: nat)
    requires forall i :: 0 <= i < |w| ==> !IsDigit(w[i])
    ensures ParseIds("HR-Crime", w + Decimal(video) + "_" + Decimal(person))
      == Ok(ParsedIds(VideoText(Decimal(video)), person))
  {
    HrGroupsOf(w, Decimal(video), Decimal(person));
    ParseIntOfDecimal(person);
  }

  /** A tag character followed by a number, as UTK ids spell their video and person fields. */
  lemma TaggedNumber(tag: char, n: nat)
    requires IsWordChar(tag)
    ensures AllWord([tag] + Decimal(n))
    ensures ([tag] + Decimal(n))[1..] == Decimal(n)
    ensures tag != '_' ==> '_' !in [tag] + Decimal(n)
  {
    var t := [tag] + Decimal(n);
    forall k | 0 < k < |t| ensures IsDigit(t[k]) { assert t[k] == Decimal(n)[k - 1]; }
  }

  /** The UTK branch drops one tag character from each group and converts the person number. */
  lemma UtkIdsRoundTrip(w: string, video: string, tag: char, person: nat)
    requires '_' !in w
    requires video != [] && AllWord(video)
    requires IsWordChar(tag) && tag != '_'
    ensures ParseIds("UTK", w + "_" + video + "_" + ([tag] + Decimal(person)))
      == Ok(ParsedIds(VideoText(video[1..]), person))
  {
    var b := [tag] + Decimal(person);
    var s := w + "_" + video + "_" + b;
    assert UtkSearch(s) == Some(Match(|w|, video, b)) by {
      TaggedNumber(tag, person);
      UtkGroupsOf(w, video, b);
    }
    assert ParseInt(b[1..]) == Some(person) by {
      TaggedNumber(tag, person);
      ParseIntOfDecimal(person);
    }
  }

  /** `_extract_fixed_sized_segments_UTK`: both groups lose their first character and go through `int()`,
      which raises ValueError unless both remainders are integer literals. */
  function ParseUtkIds(id: string): (r: Result<ParsedIds, IdError>)
    ensures r.Ok? ==> r.value.video.VideoNumber? && r.value.video.number >= 0 && r.value.person >= 0
    ensures r == Err(NotAnInteger) <==>
      UtkSearch(id).Some? && !(IntLiteral(UtkSearch(id).value.group1[1..]) && IntLiteral(UtkSearch(id).value.group2[1..]))
    ensures r.Ok? ==> UtkSearch(id).Some?
    ensures r.Ok? ==>
      var m := UtkSearch(id).value;
      && IntLiteral(m.group1[1..]) && IntLiteral(m.group2[1..])
      && r.value == ParsedIds(VideoNumber(DecimalValue(DropUnderscores(m.group1[1..]))),
                              DecimalValue(DropUnderscores(m.group2[1..])))
  {
    var m := UtkSearch(id);
    if m.None? then Err(NoMatch)
    else
      var video := ParseInt(m.value.group1[1..]);
      if video.None? then Err(NotAnInteger)
      else
        var person := ParseInt(m.value.group2[1..]);
        if person.None? then Err(NotAnInteger)
        else Ok(ParsedIds(VideoNumber(video.value), person.value))
  }

  /** The UTK twin raises AttributeError exactly when the pattern matches nowhere. */
  lemma ParseUtkIdsNoMatch(id: string)
    ensures ParseUtkIds(id) == Err(NoMatch) <==> forall i: nat, g1, g2 :: !UtkMatchesAt(id, i, g1, g2)
  {
    UtkSearchSpec(id);
  }

  /** `int()` of a tagged number with its tag dropped gives the number back. */
  lemma TaggedNumberParses(tag: char, n: nat)
    requires IsWordChar(tag)
    ensures ParseInt(([tag] + Decimal(n))[1..]) == Some(n)
  {
    TaggedNumber(tag, n);
    ParseIntOfDecimal(n);
  }

  /** The search over a UTK-shaped id returns the two tagged numbers as its groups. */
  lemma TaggedGroupsOf(w: string, videoTag: char, video: nat, personTag: char, person: nat)
    requires '_' !in w
    requires IsWordChar(videoTag) && IsWordChar(personTag) && personTag != '_'
    ensures var a, b := [videoTag] + Decimal(video), [personTag] + Decimal(person);
      UtkSearch(w + "_" + a + "_" + b) == Some(Match(|w|, a, b))
  {
    TaggedNumber(videoTag, video);
    TaggedNumber(personTag, person);
    UtkGroupsOf(w, [videoTag] + Decimal(video), [personTag] + Decimal(person));
  }

  /** The UTK twin reads back both numbers of an id such as `s01_e02` after any underscore-free prefix. */
  lemma UtkNumbersRoundTrip(w: string, videoTag: char, video: nat, personTag: char, person: nat)
    requires '_' !in w
    requires IsWordChar(videoTag) && IsWordChar(personTag) && personTag != '_'
    ensures ParseUtkIds(w + "_" + ([videoTag] + Decimal(video)) + "_" + ([personTag] + Decimal(person)))
      == Ok(ParsedIds(VideoNumber(video), person))
  {
    TaggedGroupsOf(w, videoTag, video, personTag, person);
    TaggedNumberParses(videoTag, video);
    TaggedNumberParses(personTag, person);
  }
}
