/** The label heuristics of the handler: a priority level and an issue type are read off the
    comma-joined label text with `Matcher.find` over the patterns
    `(?:priority:)?(high|normal|low)` and `(?:type:)?(bug|feature|story)`.

    `Find` models what `find` does with a pattern of the shape `(?:prefix)?(a1|...|an)`: it tries
    start positions from left to right; at each one it first tries the optional prefix (greedy),
    then backtracks to the alternatives without it; the alternatives are tried in pattern order.
    `Leftmost` is the reference: the alternative found at the least position where any of them
    occurs.  `FindIsLeftmost` proves the two agree whenever no alternative starts with a
    character of the prefix, which holds for both patterns. */
module LabelHeuristics {
  import opened Common

  /** A located occurrence of one alternative. */
  datatype Occurrence = Occurrence(pos: nat, word: string)

  /** No alternative occurs at any position in `[lo, hi)`. */
  ghost predicate NoneIn(s: string, lo: nat, hi: nat, alts: seq<string>)
  {
    forall q: nat, a :: lo <= q < hi && a in alts ==> !OccursAt(s, q, a)
  }

  /** `w` occurs in `s`, and no alternative occurs strictly before that occurrence. */
  ghost predicate FirstOccurrenceIs(s: string, alts: seq<string>, w: string)
  {
    exists p: nat :: OccursAt(s, p, w) && NoneIn(s, 0, p, alts)
  }

  /** No alternative starts with a character of the prefix (nor is empty). */
  ghost predicate PrefixInert(prefix: string, alts: seq<string>)
  {
    forall a :: a in alts ==> |a| > 0 && a[0] !in prefix
  }

  /** The alternatives start with pairwise different characters. */
  ghost predicate DistinctInitials(alts: seq<string>)
  {
    (forall k :: 0 <= k < |alts| ==> |alts[k]| > 0) &&
    forall j, k :: 0 <= j < k < |alts| ==> alts[j][0] != alts[k][0]
  }

  /** The regex alternation `a1|...|an` tried at position `i`: the first alternative that matches. */
  function AlternativeAt(s: string, i: nat, alts: seq<string>): (r: Option<string>)
    ensures r.Some? ==> r.value in alts && OccursAt(s, i, r.value)
    ensures r.None? ==> forall a :: a in alts ==> !OccursAt(s, i, a)
  {
    if alts == [] then None
    else if OccursAt(s, i, alts[0]) then Some(alts[0])
    else AlternativeAt(s, i, alts[1..])
  }

  /** `(?:prefix)?(a1|...|an)` tried at position `i`; the result is group 1. */
  function MatchAt(s: string, i: nat, prefix: string, alts: seq<string>): Option<string>
  {
    var withPrefix := if OccursAt(s, i, prefix) then AlternativeAt(s, i + |prefix|, alts) else None;
    if withPrefix.Some? then withPrefix else AlternativeAt(s, i, alts)
  }

  /** `Matcher.find` from position `from`: group 1 of the match with the least start position. */
  function Find(s: string, from: nat, prefix: string, alts: seq<string>): Option<string>
    decreases |s| - from
  {
    if from > |s| then None
    else match MatchAt(s, from, prefix, alts)
      case Some(w) => Some(w)
      case None => Find(s, from + 1, prefix, alts)
  }

  /** Reference search: the alternative at the least position `>= from` where any occurs. */
  function Leftmost(s: string, from: nat, alts: seq<string>): (r: Option<Occurrence>)
    decreases |s| - from
    ensures r.Some? ==>
      from <= r.value.pos && r.value.word in alts &&
      OccursAt(s, r.value.pos, r.value.word) && NoneIn(s, from, r.value.pos, alts)
    ensures r.None? ==> forall q: nat, a :: from <= q && a in alts ==> !OccursAt(s, q, a)
  {
    if from > |s| then None
    else match AlternativeAt(s, from, alts)
      case Some(w) => Some(Occurrence(from, w))
      case None => Leftmost(s, from + 1, alts)
  }

  function WordOf(o: Option<Occurrence>): Option<string>
  {
    match o
    case Some(occ) => Some(occ.word)
    case None => None
  }

  /** A stretch of text holding no initial of any alternative holds no occurrence. */
  lemma NoneInByInitials(s: string, lo: nat, hi: nat, alts: seq<string>)
    requires lo <= hi <= |s|
    requires forall a :: a in alts ==> |a| > 0 && a[0] !in s[lo..hi]
    ensures NoneIn(s, lo, hi, alts)
  {
    forall q: nat, a | lo <= q < hi && a in alts
      ensures !OccursAt(s, q, a)
    {
      assert s[q] == s[lo..hi][q - lo];
    }
  }

  /** One step of the search past a position where no alternative starts. */
  lemma LeftmostStep(s: string, i: nat, alts: seq<string>)
    requires i <= |s| && AlternativeAt(s, i, alts).None?
    ensures Leftmost(s, i, alts) == Leftmost(s, i + 1, alts)
  { }

  /** The search skips a stretch where no alternative occurs. */
  lemma {:induction false} SkipRun(s: string, lo: nat, hi: nat, alts: seq<string>)
    requires lo <= hi <= |s| && NoneIn(s, lo, hi, alts)
    ensures Leftmost(s, lo, alts) == Leftmost(s, hi, alts)
    decreases hi - lo
  {
    if lo < hi {
      LeftmostStep(s, lo, alts);
      SkipRun(s, lo + 1, hi, alts);
    }
  }

  /** Where the prefix occurs, no alternative starts inside it, so the search may skip it. */
  lemma SkipPrefix(s: string, i: nat, prefix: string, alts: seq<string>)
    requires PrefixInert(prefix, alts) && OccursAt(s, i, prefix)
    ensures Leftmost(s, i, alts) == Leftmost(s, i + |prefix|, alts)
  {
    InertPrefixHoldsNone(s, i, prefix, alts);
    SkipRun(s, i, i + |prefix|, alts);
  }

  /** No alternative starts inside an occurrence of an inert prefix. */
  lemma InertPrefixHoldsNone(s: string, i: nat, prefix: string, alts: seq<string>)
    requires PrefixInert(prefix, alts) && OccursAt(s, i, prefix)
    ensures NoneIn(s, i, i + |prefix|, alts)
  {
    assert s[i..i + |prefix|] == prefix;
    NoneInByInitials(s, i, i + |prefix|, alts);
  }

  /** The regex search and the leftmost-substring search return the same token. */
  lemma {:induction false} FindIsLeftmost(s: string, from: nat, prefix: string, alts: seq<string>)
    requires PrefixInert(prefix, alts)
    ensures Find(s, from, prefix, alts) == WordOf(Leftmost(s, from, alts))
    decreases |s| - from
  {
    if from <= |s| {
      if OccursAt(s, from, prefix) && AlternativeAt(s, from + |prefix|, alts).Some? {
        SkipPrefix(s, from, prefix, alts);
        var w := AlternativeAt(s, from + |prefix|, alts).value;
        assert OccursAt(s, from + |prefix|, w);
        assert Leftmost(s, from + |prefix|, alts) == Some(Occurrence(from + |prefix|, w));
      } else if AlternativeAt(s, from, alts).None? {
        FindIsLeftmost(s, from + 1, prefix, alts);
      }
    }
  }

  /** With distinct initials, the leftmost occurrence is the only alternative at its position,
      and any alternative occurring first is the one `Leftmost` returns. */
  lemma LeftmostCharacterised(s: string, alts: seq<string>, w: string)
    requires DistinctInitials(alts) && w in alts
    ensures FirstOccurrenceIs(s, alts, w) <==> Leftmost(s, 0, alts).Some? && Leftmost(s, 0, alts).value.word == w
  {
    var r := Leftmost(s, 0, alts);
    if FirstOccurrenceIs(s, alts, w) {
      var p: nat :| OccursAt(s, p, w) && NoneIn(s, 0, p, alts);
      var o := r.value;
      assert o.pos == p;
      var j :| 0 <= j < |alts| && alts[j] == w;
      var k :| 0 <= k < |alts| && alts[k] == o.word;
      assert s[p] == w[0] && s[p] == o.word[0];
      assert j == k;
    }
    if r.Some? && r.value.word == w {
      assert OccursAt(s, r.value.pos, w) && NoneIn(s, 0, r.value.pos, alts);
    }
  }

  /** Priority levels of the host task model; the handler uses P1, P3 and P5. */
  datatype PriorityLevel = P1 | P2 | P3 | P4 | P5
  {
    /** `PriorityLevel.toString()`. */
    function Name(): string
    {
      match this
      case P1 => "P1"
      case P2 => "P2"
      case P3 => "P3"
      case P4 => "P4"
      case P5 => "P5"
    }
  }

  const PriorityPrefix: string := "priority:"
  const PriorityWords: seq<string> := ["high", "normal", "low"]
  const TypePrefix: string := "type:"
  const TypeWords: seq<string> := ["bug", "feature", "story"]

  /** `getPriority`: "high" gives P1, "low" gives P5, anything else (or no match) P3. */
  function GetPriority(labels: string): string
  {
    match Find(labels, 0, PriorityPrefix, PriorityWords)
    case Some(p) =>
      if p == "high" then P1.Name() else if p == "low" then P5.Name() else P3.Name()
    case None => P3.Name()
  }

  /** `getType`: the matched token, or the empty string. */
  function GetType(labels: string): string
  {
    match Find(labels, 0, TypePrefix, TypeWords)
    case Some(t) => t
    case None => ""
  }

  lemma PriorityPatternFacts()
    ensures PrefixInert(PriorityPrefix, PriorityWords) && DistinctInitials(PriorityWords)
  {
    assert PriorityWords[0][0] == 'h' && PriorityWords[1][0] == 'n' && PriorityWords[2][0] == 'l';
  }

  lemma TypePatternFacts()
    ensures PrefixInert(TypePrefix, TypeWords) && DistinctInitials(TypeWords)
  {
    assert TypeWords[0][0] == 'b' && TypeWords[1][0] == 'f' && TypeWords[2][0] == 's';
  }

  /** The priority is decided by whichever of high/normal/low occurs first in the labels. */
  lemma PriorityByFirstWord(labels: string)
    ensures GetPriority(labels) == "P1" <==> FirstOccurrenceIs(labels, PriorityWords, "high")
    ensures GetPriority(labels) == "P5" <==> FirstOccurrenceIs(labels, PriorityWords, "low")
    ensures GetPriority(labels) == "P3" <==>
      !FirstOccurrenceIs(labels, PriorityWords, "high") && !FirstOccurrenceIs(labels, PriorityWords, "low")
    ensures GetPriority(labels) in {"P1", "P3", "P5"}
  {
    PriorityPatternFacts();
    FindIsLeftmost(labels, 0, PriorityPrefix, PriorityWords);
    LeftmostCharacterised(labels, PriorityWords, "high");
    LeftmostCharacterised(labels, PriorityWords, "low");
  }

  /** No priority word anywhere (the empty label text included) gives the default P3. */
  lemma PriorityDefault(labels: string)
    requires forall p: nat, a :: a in PriorityWords ==> !OccursAt(labels, p, a)
    ensures GetPriority(labels) == "P3"
  {
    PriorityByFirstWord(labels);
  }

  /** The type is whichever of bug/feature/story occurs first in the labels, or "" if none does. */
  lemma TypeByFirstWord(labels: string)
    ensures GetType(labels) in {"", "bug", "feature", "story"}
    ensures GetType(labels) == "" <==> forall p: nat, a :: a in TypeWords ==> !OccursAt(labels, p, a)
    ensures forall w :: w in TypeWords ==> (GetType(labels) == w <==> FirstOccurrenceIs(labels, TypeWords, w))
  {
    TypePatternFacts();
    FindIsLeftmost(labels, 0, TypePrefix, TypeWords);
    forall w | w in TypeWords
      ensures GetType(labels) == w <==> FirstOccurrenceIs(labels, TypeWords, w)
    {
      LeftmostCharacterised(labels, TypeWords, w);
    }
  }

  /** A label that contains a type word anywhere gives the joined label text a type. */
  lemma TypeFromLabel(labels: seq<string>, k: nat, q: nat, w: string)
    requires k < |labels| && w in TypeWords && OccursAt(labels[k], q, w)
    ensures GetType(Join(labels, ", ")) != ""
  {
    var joined := Join(labels, ", ");
    JoinContainsItem(labels, ", ", k);
    var p: nat :| OccursAt(joined, p, labels[k]);
    OccursWithin(joined, p, labels[k], q, w);
    TypeByFirstWord(joined);
  }

  /** A type word preceded by text holding no initial of a type word is the type. */
  lemma TypeAfterPlainText(s: string, p: nat, w: string)
    requires w in TypeWords && OccursAt(s, p, w)
    requires forall a :: a in TypeWords ==> a[0] !in s[..p]
    ensures GetType(s) == w
  {
    TypePatternFacts();
    NoneInByInitials(s, 0, p, TypeWords);
    LeftmostCharacterised(s, TypeWords, w);
    FindIsLeftmost(s, 0, TypePrefix, TypeWords);
  }

  /** A priority word preceded by text holding no initial of a priority word decides the priority. */
  lemma PriorityAfterPlainText(s: string, p: nat, w: string)
    requires w in PriorityWords && OccursAt(s, p, w)
    requires forall a :: a in PriorityWords ==> a[0] !in s[..p]
    ensures GetPriority(s) == (if w == "high" then "P1" else if w == "low" then "P5" else "P3")
  {
    PriorityPatternFacts();
    NoneInByInitials(s, 0, p, PriorityWords);
    LeftmostCharacterised(s, PriorityWords, w);
    FindIsLeftmost(s, 0, PriorityPrefix, PriorityWords);
  }

  /** "priority:high, type:bug": the prefixed tokens give P1 and type bug. */
  lemma PrefixedLabelsExample()
    ensures GetPriority("priority:high, type:bug") == "P1"
    ensures GetType("priority:high, type:bug") == "bug"
  {
    PrefixedPriority();
    PrefixedType();
  }

  lemma PrefixedPriority()
    ensures GetPriority("priority:high, type:bug") == "P1"
  {
    var s := "priority:high, type:bug";
    assert s[..9] == "priority:";
    assert OccursAt(s, 9, "high");
    PriorityAfterPlainText(s, 9, "high");
  }

  lemma PrefixedType()
    ensures GetType("priority:high, type:bug") == "bug"
  {
    var s := "priority:high, type:bug";
    assert s[..20] == "priority:high, type:";
    assert OccursAt(s, 20, "bug");
    TypeAfterPlainText(s, 20, "bug");
  }

  /** Tokens are found inside other words: "debug" has type bug. */
  lemma DebugExample()
    ensures GetType("debug") == "bug"
  {
    assert "debug"[..2] == "de";
    assert OccursAt("debug", 2, "bug");
    TypeAfterPlainText("debug", 2, "bug");
  }

  /** "below" contains "low", so its priority is P5. */
  lemma BelowExample()
    ensures GetPriority("below") == "P5"
  {
    assert "below"[..2] == "be";
    assert OccursAt("below", 2, "low");
    PriorityAfterPlainText("below", 2, "low");
  }

  /** "history" contains "story". */
  lemma HistoryExample()
    ensures GetType("history") == "story"
  {
    assert "history"[..2] == "hi";
    assert OccursAt("history", 2, "story");
    TypeAfterPlainText("history", 2, "story");
  }

  /** The empty label text has the default priority and no type. */
  lemma EmptyLabelsExample()
    ensures GetPriority("") == "P3" && GetType("") == ""
  {
  }
}
