/**
 * Stage-level edits of the agenda editor: which candidate source a stage uses
 * and how switching source rewrites the source fields, the Yes/No guard on the
 * number of winners, slate URL normalisation and the "Column:Value" voter
 * filter string. Each edit is a function from the old stage to the new one;
 * the editor class applies it to the stage being edited.
 */
module AgendaSources {
  import opened Wrappers
  import opened QVClient

  /** The inline candidate list that encodes a Yes/No ballot. */
  const YesNoInline: string := "Yes,No"

  /** Every stored slate reference starts with this URL. */
  const SlateBaseUrl: string := "https://petitionbuilder.org/slate/"

  datatype SourceKind = YesNo | Inline | Slate | Alternates
  {
    /** The option value the source selector uses for this kind. */
    function Tag(): string
    {
      match this
      case YesNo => "yn"
      case Inline => "inline"
      case Slate => "slate"
      case Alternates => "alternates"
    }

    /** Position in the order in which the source fields are probed. */
    function Rank(): nat
    {
      match this
      case YesNo => 0
      case Inline => 1
      case Slate => 2
      case Alternates => 3
    }
  }

  /** Whether the field that encodes source `k` is set on `s`, ignoring the other fields. */
  predicate IsActive(s: Stage, k: SourceKind)
  {
    match k
    case YesNo => s.sourceInline == Some(YesNoInline)
    case Inline => s.sourceInline.Some? && s.sourceInline.value != YesNoInline
    case Slate => s.sourceSlate.Some?
    case Alternates => s.sourceAlternates == Some(true)
  }

  /** How many of the three source fields are set. */
  function ActiveFields(s: Stage): nat
  {
    (if s.sourceInline.Some? then 1 else 0)
    + (if s.sourceSlate.Some? then 1 else 0)
    + (if s.sourceAlternates == Some(true) then 1 else 0)
  }

  /** The stage keeps its source fields exclusive: at most one is set. */
  predicate Exclusive(s: Stage)
  {
    ActiveFields(s) <= 1
  }

  /**
   * calculateSourceValue: the source the selector shows. Probing Yes/No,
   * inline, slate, alternates in that order, the first whose field is set
   * wins; when none is set the selector has no value.
   */
  function CalculateSourceValue(s: Stage): (r: Option<SourceKind>)
    ensures r.Some? ==> IsActive(s, r.value)
    ensures r.Some? ==> forall k :: IsActive(s, k) ==> r.value.Rank() <= k.Rank()
    ensures r.None? <==> ActiveFields(s) == 0
  {
    if s.sourceInline == Some(YesNoInline) then Some(YesNo)
    else if s.sourceInline.Some? then Some(Inline)
    else if s.sourceSlate.Some? then Some(Slate)
    else if s.sourceAlternates == Some(true) then Some(Alternates)
    else None
  }

  /** On a stage whose source fields are exclusive the probing order does not matter. */
  lemma ExclusiveClassification(s: Stage, k: SourceKind)
    requires Exclusive(s)
    ensures CalculateSourceValue(s) == Some(k) <==> IsActive(s, k)
  {
    if IsActive(s, k) {
      assert ActiveFields(s) > 0;
    }
  }

  /**
   * handleSouceChange on one stage: selecting a source sets its field, clears
   * the two others, and Yes/No also sets the winners to one. An unknown
   * selector value changes nothing.
   */
  function WithSource(s: Stage, val: string): (r: Stage)
    ensures forall k: SourceKind :: val == k.Tag() ==> CalculateSourceValue(r) == Some(k)
    ensures (exists k: SourceKind :: val == k.Tag()) ==> ActiveFields(r) == 1
    ensures val == YesNo.Tag() ==> r.nWinners == 1
    ensures val != YesNo.Tag() ==> r.nWinners == s.nWinners
    ensures r.policy == s.policy && r.title == s.title
    ensures r.forbidUndervote == s.forbidUndervote && r.filterUser == s.filterUser
    ensures (forall k: SourceKind :: val != k.Tag()) ==> r == s
  {
    if val == "yn" then
      assert val == YesNo.Tag();
      s.(nWinners := 1, sourceInline := Some(YesNoInline), sourceAlternates := Some(false), sourceSlate := None)
    else if val == "inline" then
      assert val == Inline.Tag();
      s.(sourceInline := Some(""), sourceAlternates := Some(false), sourceSlate := None)
    else if val == "slate" then
      assert val == Slate.Tag();
      s.(sourceInline := None, sourceAlternates := Some(false), sourceSlate := Some(""))
    else if val == "alternates" then
      assert val == Alternates.Tag();
      s.(sourceInline := None, sourceAlternates := Some(true), sourceSlate := None)
    else
      s
  }

  /**
   * Switching source twice keeps only the second choice: the configuration of
   * the first (its candidate list or slate) is not kept.
   */
  lemma SourceSwitchForgetsPrevious(s: Stage, k1: SourceKind, k2: SourceKind)
    requires k2 != YesNo
    ensures WithSource(WithSource(s, k1.Tag()), k2.Tag()) == WithSource(s, k2.Tag()).(nWinners := WithSource(s, k1.Tag()).nWinners)
  {
  }

  /**
   * handleNWinnersChange on one stage: refused (None) on a Yes/No stage,
   * otherwise only the number of winners changes.
   */
  function WithWinners(s: Stage, n: int): (r: Option<Stage>)
    ensures r.None? <==> CalculateSourceValue(s) == Some(YesNo)
    ensures r.Some? ==> r.value.nWinners == n && r.value.(nWinners := s.nWinners) == s
  {
    if s.sourceInline == Some(YesNoInline) then None else Some(s.(nWinners := n))
  }

  /** A stage switched to Yes/No elects one winner, and that number cannot be edited afterwards. */
  lemma YesNoPinsOneWinner(s: Stage, n: int)
    ensures WithSource(s, YesNo.Tag()).nWinners == 1
    ensures WithWinners(WithSource(s, YesNo.Tag()), n).None?
  {
  }

  /**
   * handleSInlineChange stores the typed text as is; typing "Yes,No" makes
   * the stage a Yes/No stage without setting its winners to one, and the
   * winners guard then refuses every further edit of that number.
   */
  lemma InlineTextCanMakeYesNo(s: Stage, n: int)
    requires CalculateSourceValue(s) == Some(Inline)
    ensures var t := s.(sourceInline := Some(YesNoInline));
      && CalculateSourceValue(t) == Some(YesNo)
      && t.nWinners == s.nWinners
      && WithWinners(t, n).None?
  {
  }

  // ---------------------------------------------------------------------------
  // Slate references

  /** `s.replace(pat, "")` with a string pattern: the first occurrence of `pat` removed. */
  function RemoveFirst(s: string, pat: string): (r: string)
    ensures r == s || |r| + |pat| == |s|
    ensures s != [] && pat <= s ==> r == s[|pat|..]
  {
    if |s| < |pat| || s == [] then s
    else if s[..|pat|] == pat then s[|pat|..]
    else [s[0]] + RemoveFirst(s[1..], pat)
  }

  /** `pat` occurs in `s` starting at position `i`. */
  predicate OccursAt(pat: string, s: string, i: int)
  {
    0 <= i && i + |pat| <= |s| && s[i..i + |pat|] == pat
  }

  /** `pat` occurs somewhere in `s`. */
  ghost predicate Occurs(pat: string, s: string)
  {
    exists i :: OccursAt(pat, s, i)
  }

  /** The normalised slate URL stored for the non-empty text `val` typed in the slate box. */
  function NormalizeSlate(val: string): (r: string)
    ensures SlateBaseUrl <= r
    ensures |r| <= |SlateBaseUrl| + |val|
  {
    SlateBaseUrl + RemoveFirst(val, SlateBaseUrl)
  }

  /** handleSSlateChange on one stage: empty text stores "", other text its normalised URL. */
  function WithSlate(s: Stage, val: string): (r: Stage)
    ensures r.sourceSlate.Some?
    ensures val == "" ==> r.sourceSlate.value == ""
    ensures val != "" ==> SlateBaseUrl <= r.sourceSlate.value
    ensures r.(sourceSlate := s.sourceSlate) == s
  {
    s.(sourceSlate := Some(if val != "" then NormalizeSlate(val) else ""))
  }

  /** The text the slate box shows for a stored reference: the reference without the base URL. */
  function SlateInput(sourceSlate: string): (r: string)
    ensures r == sourceSlate || |r| + |SlateBaseUrl| == |sourceSlate|
    ensures SlateBaseUrl <= sourceSlate ==> SlateBaseUrl + r == sourceSlate
  {
    RemoveFirst(sourceSlate, SlateBaseUrl)
  }

  lemma {:induction false} RemoveFirstOfPrefixed(pat: string, t: string)
    ensures RemoveFirst(pat + t, pat) == t
  {
    var s := pat + t;
    if s == [] {
    } else {
      assert s[..|pat|] == pat;
      assert s[|pat|..] == t;
    }
  }

  lemma {:induction false} RemoveFirstAbsent(s: string, pat: string)
    requires !Occurs(pat, s)
    ensures RemoveFirst(s, pat) == s
  {
    if |s| < |pat| || s == [] {
    } else {
      assert !OccursAt(pat, s, 0);
      assert s[0..0 + |pat|] == s[..|pat|];
      forall i
        ensures !OccursAt(pat, s[1..], i)
      {
        if 0 <= i && i + |pat| <= |s| - 1 {
          assert s[1..][i..i + |pat|] == s[i + 1..i + 1 + |pat|];
          assert !OccursAt(pat, s, i + 1);
        }
      }
      RemoveFirstAbsent(s[1..], pat);
      assert [s[0]] + s[1..] == s;
    }
  }

  /**
   * Where `pat` first occurs at position `i`, exactly that occurrence is cut
   * out and the text around it is kept.
   */
  lemma {:induction false} RemoveFirstFirstOccurrence(s: string, pat: string, i: nat)
    requires pat != [] && OccursAt(pat, s, i)
    requires forall j :: 0 <= j < i ==> !OccursAt(pat, s, j)
    ensures RemoveFirst(s, pat) == s[..i] + s[i + |pat|..]
  {
    if i == 0 {
      assert s[..|pat|] == s[0..0 + |pat|];
    } else {
      assert !OccursAt(pat, s, 0);
      assert s[..|pat|] == s[0..0 + |pat|];
      assert s[1..][i - 1..i - 1 + |pat|] == s[i..i + |pat|];
      forall j | 0 <= j < i - 1
        ensures !OccursAt(pat, s[1..], j)
      {
        if j + |pat| <= |s| - 1 {
          assert s[1..][j..j + |pat|] == s[j + 1..j + 1 + |pat|];
        }
        assert !OccursAt(pat, s, j + 1);
      }
      RemoveFirstFirstOccurrence(s[1..], pat, i - 1);
      assert s[..i] == [s[0]] + s[1..][..i - 1];
    }
  }

  /** Normalising a stored URL again returns it unchanged. */
  lemma NormalizeSlateIdempotent(val: string)
    ensures NormalizeSlate(NormalizeSlate(val)) == NormalizeSlate(val)
  {
    RemoveFirstOfPrefixed(SlateBaseUrl, RemoveFirst(val, SlateBaseUrl));
  }

  /**
   * After typing `val` the slate box shows `val` without its first copy of the
   * base URL; a bare slate id is shown as typed and stored behind the base URL.
   */
  lemma SlateInputRoundTrip(val: string)
    ensures SlateInput(NormalizeSlate(val)) == RemoveFirst(val, SlateBaseUrl)
    ensures !Occurs(SlateBaseUrl, val) ==> NormalizeSlate(val) == SlateBaseUrl + val && SlateInput(NormalizeSlate(val)) == val
  {
    RemoveFirstOfPrefixed(SlateBaseUrl, RemoveFirst(val, SlateBaseUrl));
    if !Occurs(SlateBaseUrl, val) {
      RemoveFirstAbsent(val, SlateBaseUrl);
    }
  }

  /** A full URL that already starts with the base is stored unchanged. */
  lemma FullSlateUrlKept(id: string)
    ensures NormalizeSlate(SlateBaseUrl + id) == SlateBaseUrl + id
  {
    RemoveFirstOfPrefixed(SlateBaseUrl, id);
  }

  /**
   * The slate box is shown only on a slate stage; editing it there keeps the
   * source fields exclusive and the stage a slate stage.
   */
  lemma SlateEditKeepsSource(s: Stage, val: string)
    requires Exclusive(s) && CalculateSourceValue(s) == Some(Slate)
    ensures Exclusive(WithSlate(s, val))
    ensures CalculateSourceValue(WithSlate(s, val)) == Some(Slate)
  {
  }

  /**
   * The inline box is shown only on an inline stage; editing it there keeps the
   * source fields exclusive, and the stage becomes Yes/No exactly when the text
   * typed is "Yes,No".
   */
  lemma InlineEditKeepsSource(s: Stage, val: string)
    requires Exclusive(s) && CalculateSourceValue(s) == Some(Inline)
    ensures Exclusive(s.(sourceInline := Some(val)))
    ensures CalculateSourceValue(s.(sourceInline := Some(val))) == Some(if val == YesNoInline then YesNo else Inline)
  {
  }

  /**
   * Edits that leave the three source fields alone (title, policy, undervote,
   * winners, voter filter) keep exclusivity and the classification.
   */
  lemma OtherEditsKeepSource(s: Stage, r: Stage)
    requires r.sourceInline == s.sourceInline && r.sourceSlate == s.sourceSlate
    requires r.sourceAlternates == s.sourceAlternates
    ensures Exclusive(r) <==> Exclusive(s)
    ensures CalculateSourceValue(r) == CalculateSourceValue(s)
  {
  }

  // ---------------------------------------------------------------------------
  // Voter filter "Column:Value"

  /** `f.split(":")[0]`: the text before the first colon (all of `f` when it has none). */
  function ColumnPart(f: string): (r: string)
    ensures ':' !in r && r <= f
    ensures ':' !in f ==> r == f
    ensures ':' in f ==> |r| < |f| && f[|r|] == ':'
  {
    if f == [] || f[0] == ':' then [] else [f[0]] + ColumnPart(f[1..])
  }

  /** `f.split(":")[1]`: the text between the first and second colon; undefined without a colon. */
  function ValuePart(f: string): (r: Option<string>)
    ensures r.Some? <==> ':' in f
    ensures r.Some? ==> ':' !in r.value && ColumnPart(f) + ":" + r.value <= f
    ensures r.Some? ==> var k := |ColumnPart(f)| + 1 + |r.value|; k == |f| || f[k] == ':'
  {
    if ':' in f then Some(ColumnPart(f[|ColumnPart(f)| + 1..])) else None
  }

  /** Joining a colon-free column and value with ":" splits back into the two. */
  lemma {:induction false} FilterJoinSplits(c: string, v: string)
    requires ':' !in c
    ensures ColumnPart(c + ":" + v) == c
    ensures ':' !in v ==> ValuePart(c + ":" + v) == Some(v)
  {
    var f := c + ":" + v;
    if c == [] {
      assert f[0] == ':';
    } else {
      assert f[0] == c[0];
      assert f[1..] == c[1..] + ":" + v;
      FilterJoinSplits(c[1..], v);
    }
    assert f[|c| + 1..] == v;
  }

  /**
   * handleFilterUserChange1 on one stage: choosing column `val` filters on
   * that column's first listed value; the empty choice ("Everyone") clears the
   * filter. A column without listed values makes the source throw, so nothing
   * changes (None).
   */
  function WithFilterColumn(s: Stage, val: string, columns: map<string, seq<string>>): (r: Option<Stage>)
    ensures r.None? <==> val != "" && (val !in columns || columns[val] == [])
    ensures r.Some? ==> r.value.(filterUser := s.filterUser) == s
    ensures r.Some? ==> (r.value.filterUser.None? <==> val == "")
  {
    if val == "" then Some(s.(filterUser := None))
    else if val in columns && columns[val] != [] then Some(s.(filterUser := Some(val + ":" + columns[val][0])))
    else None
  }

  /**
   * handleFilterUserChange2 on one stage: the value part is replaced and the
   * column kept; an empty value clears the filter. Without a filter the source
   * throws on `split`, so nothing changes (None).
   */
  function WithFilterValue(s: Stage, val: string): (r: Option<Stage>)
    ensures r.None? <==> s.filterUser.None?
    ensures r.Some? ==> r.value.(filterUser := s.filterUser) == s
    ensures r.Some? ==> (r.value.filterUser.None? <==> val == "")
  {
    if s.filterUser.None? then None
    else Some(s.(filterUser := if val != "" then Some(ColumnPart(s.filterUser.value) + ":" + val) else None))
  }

  /** After choosing a column, the filter reads back as that column and its first value. */
  lemma FilterColumnReadsBack(s: Stage, val: string, columns: map<string, seq<string>>)
    requires val != "" && ':' !in val && val in columns && columns[val] != [] && ':' !in columns[val][0]
    ensures WithFilterColumn(s, val, columns).Some?
    ensures var f := WithFilterColumn(s, val, columns).value.filterUser.value;
      ColumnPart(f) == val && ValuePart(f) == Some(columns[val][0])
  {
    FilterJoinSplits(val, columns[val][0]);
  }

  /** Changing the value keeps the column the filter had and reads back as the new value. */
  lemma FilterValueReadsBack(s: Stage, val: string)
    requires s.filterUser.Some? && val != "" && ':' !in val
    ensures WithFilterValue(s, val).Some?
    ensures var f := WithFilterValue(s, val).value.filterUser.value;
      ColumnPart(f) == ColumnPart(s.filterUser.value) && ValuePart(f) == Some(val)
  {
    FilterJoinSplits(ColumnPart(s.filterUser.value), val);
  }
}
