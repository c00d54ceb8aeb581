/** The search for an unused event slug. */
module Slugs {
  const MAX_LENGTH: nat := 200

  predicate IsSlugChar(c: char) {
    'a' <= c <= 'z' || '0' <= c <= '9'
  }

  /** Words of lowercase letters and digits joined by single hyphens. */
  predicate IsSlug(s: string) {
    && s != ""
    && (forall i :: 0 <= i < |s| ==> IsSlugChar(s[i]) || s[i] == '-')
    && s[0] != '-' && s[|s| - 1] != '-'
    && (forall i :: 0 <= i < |s| - 1 ==> s[i] != '-' || s[i + 1] != '-')
  }

  // ------------------------------------------------------------- text

  /** The parts between hyphens. */
  function Split(s: string): (parts: seq<string>)
    ensures parts != []
  {
    if s == "" then [""]
    else
      var rest := Split(s[1..]);
      if s[0] == '-' then [""] + rest else [[s[0]] + rest[0]] + rest[1..]
  }

  function NonEmpty(parts: seq<string>): seq<string> {
    if parts == [] then []
    else (if parts[0] == "" then [] else [parts[0]]) + NonEmpty(parts[1..])
  }

  function Join(parts: seq<string>): string {
    if parts == [] then ""
    else if |parts| == 1 then parts[0]
    else parts[0] + "-" + Join(parts[1..])
  }

  /** The text without its trailing hyphens. */
  function Stripped(s: string): string {
    if s != "" && s[|s| - 1] == '-' then Stripped(s[..|s| - 1]) else s
  }

  /** The beginning of a text, up to `end`; an end below zero counts from the back. */
  function Prefix(s: string, end: int): string {
    if end > |s| then s
    else if end >= 0 then s[..end]
    else if |s| + end >= 0 then s[..|s| + end]
    else ""
  }

  function Digit(d: nat): char
    requires d < 10
  {
    ['0', '1', '2', '3', '4', '5', '6', '7', '8', '9'][d]
  }

  function Decimal(n: nat): string {
    if n < 10 then [Digit(n)] else Decimal(n / 10) + [Digit(n % 10)]
  }

  // ------------------------------------------------------------- candidates

  /** What is left of a normalized event name, or a default. */
  function Base(normalized: string): string {
    var cut := Stripped(Prefix(Join(NonEmpty(Split(normalized))), MAX_LENGTH));
    if cut == "" then "event" else cut
  }

  function Suffix(n: nat): string {
    "-" + Decimal(n)
  }

  function Suffixed(base: string, n: nat): string {
    Stripped(Prefix(base, MAX_LENGTH - |Suffix(n)|)) + Suffix(n)
  }

  /** The first candidate is the base itself, the following ones have the suffixes from 2 on. */
  function Candidate(base: string, k: nat): string {
    if k == 0 then base else Suffixed(base, k + 1)
  }

  // ------------------------------------------------------------- suffixes tell candidates apart

  lemma {:induction false} DecimalHasNoHyphen(n: nat)
    ensures Decimal(n) != "" && forall i :: 0 <= i < |Decimal(n)| ==> '0' <= Decimal(n)[i] <= '9'
  {
    if n >= 10 { DecimalHasNoHyphen(n / 10); }
  }

  /** Reads a decimal number back. */
  function Value(digits: string): int {
    if digits == "" then 0
    else Value(digits[..|digits| - 1]) * 10 + (digits[|digits| - 1] as int - '0' as int)
  }

  lemma {:induction false} ValueOfDecimal(n: nat)
    ensures Value(Decimal(n)) == n
  {
    var d := Decimal(n);
    assert d[|d| - 1] as int - '0' as int == n % 10;
    if n < 10 {
      assert d[..|d| - 1] == "";
    } else {
      assert d[..|d| - 1] == Decimal(n / 10);
      ValueOfDecimal(n / 10);
    }
  }

  /** Everything after the last hyphen of a text. */
  function LastPart(s: string): string {
    if s == "" || s[|s| - 1] == '-' then "" else LastPart(s[..|s| - 1]) + [s[|s| - 1]]
  }

  lemma {:induction false} LastPartOfSuffixed(front: string, digits: string)
    requires forall i :: 0 <= i < |digits| ==> digits[i] != '-'
    ensures LastPart(front + "-" + digits) == digits
    decreases |digits|
  {
    var s := front + "-" + digits;
    if digits != "" {
      LastPartOfSuffixed(front, digits[..|digits| - 1]);
      assert s[..|s| - 1] == front + "-" + digits[..|digits| - 1];
    }
  }

  /** Candidates with different suffixes differ, however much of the base was cut off. */
  lemma SuffixedAreDistinct(base: string, m: nat, n: nat)
    requires Suffixed(base, m) == Suffixed(base, n)
    ensures m == n
  {
    hide Decimal, Stripped, Prefix, Value, LastPart;
    DecimalHasNoHyphen(m);
    DecimalHasNoHyphen(n);
    var front, front' := Stripped(Prefix(base, MAX_LENGTH - |Suffix(m)|)), Stripped(Prefix(base, MAX_LENGTH - |Suffix(n)|));
    LastPartOfSuffixed(front, Decimal(m));
    LastPartOfSuffixed(front', Decimal(n));
    assert Suffixed(base, m) == front + "-" + Decimal(m);
    assert Suffixed(base, n) == front' + "-" + Decimal(n);
    ValueOfDecimal(m);
    ValueOfDecimal(n);
  }

  // ------------------------------------------------------------- what is found is a slug

  /** A normalized name holds lowercase letters, digits and hyphens only. */
  predicate IsNormalized(s: string) {
    forall i :: 0 <= i < |s| ==> IsSlugChar(s[i]) || s[i] == '-'
  }

  predicate IsWord(s: string) {
    forall i :: 0 <= i < |s| ==> IsSlugChar(s[i])
  }

  lemma {:induction false} PartsAreWords(s: string)
    requires IsNormalized(s)
    ensures forall p :: p in Split(s) ==> IsWord(p)
    ensures forall p :: p in NonEmpty(Split(s)) ==> IsWord(p) && p != ""
    decreases |s|
  {
    SplitIntoWords(s);
    NonEmptyParts(Split(s));
  }

  lemma {:induction false} SplitIntoWords(s: string)
    requires IsNormalized(s)
    ensures forall p :: p in Split(s) ==> IsWord(p)
    decreases |s|
  {
    if s != "" {
      SplitIntoWords(s[1..]);
      assert Split(s[1..])[0] in Split(s[1..]);
    }
  }

  lemma {:induction false} NonEmptyParts(parts: seq<string>)
    ensures forall p :: p in NonEmpty(parts) <==> p in parts && p != ""
    decreases |parts|
  {
    if parts != [] { NonEmptyParts(parts[1..]); }
  }

  lemma {:induction false} JoinedWords(parts: seq<string>)
    requires parts != [] && forall p :: p in parts ==> IsWord(p) && p != ""
    ensures IsSlug(Join(parts))
    decreases |parts|
  {
    assert parts[0] in parts;
    if |parts| > 1 {
      JoinedWords(parts[1..]);
    }
  }

  lemma {:induction false} StrippedPrefix(s: string, end: nat)
    requires IsSlug(s) && end > 0
    ensures IsSlug(Stripped(Prefix(s, end))) && |Stripped(Prefix(s, end))| <= end
    decreases end
  {
    var p := Prefix(s, end);
    if end > |s| {
    } else if p[|p| - 1] == '-' {
      assert p[..|p| - 1] == Prefix(s, end - 1);
      StrippedPrefix(s, end - 1);
    }
  }

  lemma BaseIsSlug(normalized: string)
    requires IsNormalized(normalized)
    ensures IsSlug(Base(normalized)) && |Base(normalized)| <= MAX_LENGTH
  {
    PartsAreWords(normalized);
    var parts := NonEmpty(Split(normalized));
    if parts != [] {
      JoinedWords(parts);
      StrippedPrefix(Join(parts), MAX_LENGTH);
    }
  }

  lemma JoinWithLongerHead(c: char, parts: seq<string>)
    requires parts != []
    ensures Join([[c] + parts[0]] + parts[1..]) == [c] + Join(parts)
  {
    var longer := [[c] + parts[0]] + parts[1..];
    assert longer[1..] == parts[1..];
    if |parts| > 1 {
      var tail := Join(parts[1..]);
      assert ([c] + parts[0]) + "-" + tail == [c] + (parts[0] + "-" + tail);
    }
  }

  lemma {:induction false} JoinUndoesSplit(s: string)
    ensures Join(Split(s)) == s
    decreases |s|
  {
    if s != "" {
      var rest := Split(s[1..]);
      JoinUndoesSplit(s[1..]);
      assert s == [s[0]] + s[1..];
      if s[0] == '-' {
        assert ([""] + rest)[1..] == rest;
        assert Join([""] + rest) == "" + "-" + Join(rest);
      } else {
        JoinWithLongerHead(s[0], rest);
      }
    }
  }

  /** Without doubled and trailing hyphens only the part before a leading hyphen is empty. */
  lemma {:induction false} PartsOfTidyText(s: string)
    requires s != "" && s[|s| - 1] != '-'
    requires forall i :: 0 <= i < |s| - 1 ==> s[i] != '-' || s[i + 1] != '-'
    ensures Split(s)[0] == "" <==> s[0] == '-'
    ensures forall i :: 0 < i < |Split(s)| ==> Split(s)[i] != ""
    decreases |s|
  {
    if |s| > 1 {
      PartsOfTidyText(s[1..]);
    }
  }

  lemma {:induction false} NothingToDrop(parts: seq<string>)
    requires "" !in parts
    ensures NonEmpty(parts) == parts
    decreases |parts|
  {
    if parts != [] { NothingToDrop(parts[1..]); }
  }

  /** Words are told apart again by the hyphens between them. */
  lemma {:induction false} SplitUndoesJoin(words: seq<string>)
    requires words != [] && forall w :: w in words ==> IsWord(w)
    ensures Split(Join(words)) == words
    decreases |words|
  {
    assert words[0] in words;
    if |words| == 1 {
      OneWord(words[0]);
      assert words == [words[0]];
    } else {
      SplitUndoesJoin(words[1..]);
      WordAndRest(words[0], Join(words[1..]));
      hide Split, IsWord;
      assert Join(words) == words[0] + "-" + Join(words[1..]);
      assert [words[0]] + words[1..] == words;
    }
  }

  lemma {:induction false} OneWord(word: string)
    requires IsWord(word)
    ensures Split(word) == [word]
    decreases |word|
  {
    if word != "" {
      OneWord(word[1..]);
      assert word == [word[0]] + word[1..];
    }
  }

  lemma {:induction false} WordAndRest(word: string, rest: string)
    requires IsWord(word)
    ensures Split(word + "-" + rest) == [word] + Split(rest)
    decreases |word|
  {
    var s := word + "-" + rest;
    if word == "" {
      assert s[1..] == rest;
    } else {
      WordAndRest(word[1..], rest);
      assert s[1..] == word[1..] + "-" + rest;
      assert word == [word[0]] + word[1..];
    }
  }

  lemma NothingStripped(s: string)
    requires IsSlug(s) && |s| <= MAX_LENGTH
    ensures Stripped(Prefix(s, MAX_LENGTH)) == s
  {}

  /** A name that is not too long keeps its words, in order; one without words becomes "event". */
  lemma BaseKeepsWords(normalized: string)
    requires IsNormalized(normalized)
    ensures
      var words := NonEmpty(Split(normalized));
      && (words == [] ==> Base(normalized) == "event")
      && (words != [] && |Join(words)| <= MAX_LENGTH ==> Split(Base(normalized)) == words)
  {
    PartsAreWords(normalized);
    var words := NonEmpty(Split(normalized));
    hide Split, NonEmpty;
    if words != [] && |Join(words)| <= MAX_LENGTH {
      JoinedWords(words);
      SplitUndoesJoin(words);
      NothingStripped(Join(words));
      hide Join, Stripped, Prefix;
    }
  }

  /** A name that is a slug already is used as it stands. */
  lemma SlugsStay(s: string)
    requires IsSlug(s) && |s| <= MAX_LENGTH
    ensures Base(s) == s
  {
    PartsOfTidyText(s);
    assert "" !in Split(s);
    NothingToDrop(Split(s));
    JoinUndoesSplit(s);
  }

  lemma JoinedBySuffix(front: string, digits: string)
    requires IsSlug(front) && digits != "" && forall i :: 0 <= i < |digits| ==> '0' <= digits[i] <= '9'
    ensures IsSlug(front + ("-" + digits))
  {}

  lemma SuffixedIsSlug(base: string, n: nat)
    requires IsSlug(base) && |Decimal(n)| <= MAX_LENGTH - 2
    ensures IsSlug(Suffixed(base, n)) && |Suffixed(base, n)| <= MAX_LENGTH
  {
    hide IsSlug, Stripped, Prefix, Decimal;
    StrippedPrefix(base, MAX_LENGTH - |Suffix(n)|);
    DecimalHasNoHyphen(n);
    JoinedBySuffix(Stripped(Prefix(base, MAX_LENGTH - |Suffix(n)|)), Decimal(n));
  }

  /** Every candidate is a slug of at most 200 characters as long as its number has at most 198 digits. */
  lemma CandidatesAreSlugs(normalized: string, k: nat)
    requires IsNormalized(normalized) && |Decimal(k + 1)| <= MAX_LENGTH - 2
    ensures IsSlug(Candidate(Base(normalized), k)) && |Candidate(Base(normalized), k)| <= MAX_LENGTH
  {
    BaseIsSlug(normalized);
    SuffixedIsSlug(Base(normalized), k + 1);
  }

  // ------------------------------------------------------------- the search

  ghost function Tried(base: string, k: nat): set<string> {
    set i: nat | 1 <= i <= k :: Candidate(base, i)
  }

  lemma {:induction false} TriedSize(base: string, k: nat)
    ensures |Tried(base, k)| == k
  {
    hide Suffixed;
    if k == 0 {
      assert Tried(base, 0) == {};
    } else {
      TriedSize(base, k - 1);
      forall i: nat | 1 <= i <= k - 1 ensures Candidate(base, i) != Candidate(base, k) {
        if Candidate(base, i) == Candidate(base, k) { SuffixedAreDistinct(base, i + 1, k + 1); }
      }
      assert Tried(base, k) == Tried(base, k - 1) + {Candidate(base, k)};
    }
  }

  /** Rejected candidates are taken slugs, so there are no more of them than taken slugs. */
  lemma RejectedAreTaken(base: string, taken: set<string>, k: nat)
    requires forall i: nat :: 1 <= i <= k ==> Candidate(base, i) in taken
    ensures k <= |taken|
  {
    TriedSize(base, k);
    Within(Tried(base, k), taken);
  }

  /** The base itself comes again among the first suffixed candidates. */
  ghost predicate Recurs(base: string, tries: nat) {
    exists i: nat :: 1 <= i < tries && Candidate(base, i) == base
  }

  /** Rejected candidates are different taken slugs, but for a base that comes again. */
  lemma TriesAreTaken(base: string, taken: set<string>, tries: nat)
    requires forall k: nat :: k < tries ==> Candidate(base, k) in taken
    ensures tries <= |taken| + if Recurs(base, tries) then 1 else 0
  {
    hide Candidate;
    if tries > 0 {
      FirstCandidate(base);
      TriedSize(base, tries - 1);
      RecursWhenTried(base, tries);
      TriedAreTaken(base, taken, tries);
      hide Tried, Recurs;
      OneMore(Tried(base, tries - 1), base, taken);
    }
  }

  lemma RecursWhenTried(base: string, tries: nat)
    requires tries > 0
    ensures Recurs(base, tries) <==> base in Tried(base, tries - 1)
  {}

  lemma TriedAreTaken(base: string, taken: set<string>, tries: nat)
    requires tries > 0 && forall k: nat :: k < tries ==> Candidate(base, k) in taken
    ensures Tried(base, tries - 1) <= taken
  {}

  lemma OneMore(part: set<string>, x: string, whole: set<string>)
    requires part <= whole && x in whole
    ensures |part| + (if x in part then 0 else 1) <= |whole|
  {
    assert x in part ==> part + {x} == part;
    Within(part + {x}, whole);
  }

  lemma FirstCandidate(base: string)
    ensures Candidate(base, 0) == base
  {}

  lemma Within(part: set<string>, whole: set<string>)
    requires part <= whole
    ensures |part| <= |whole|
  {
    assert whole == part + (whole - part);
  }

  lemma {:induction false} StrippedKeeps(s: string, i: nat)
    requires i < |s| && s[i] != '-'
    ensures |Stripped(s)| > i
    decreases |s|
  {
    if s[|s| - 1] == '-' { StrippedKeeps(s[..|s| - 1], i); }
  }

  predicate EndsWith(s: string, end: string) {
    |end| <= |s| && s[|s| - |end|..] == end
  }

  /** A base comes again exactly when it has (all but one of) the most characters and ends with the suffix. */
  lemma RecursIff(base: string, n: nat)
    requires IsSlug(base) && |base| <= MAX_LENGTH && |Decimal(n)| <= MAX_LENGTH - 2
    ensures Suffixed(base, n) == base <==> |base| >= MAX_LENGTH - 1 && EndsWith(base, Suffix(n))
  {
    hide Decimal;
    DecimalHasNoHyphen(n);
    var end := MAX_LENGTH - |Suffix(n)|;
    if Suffixed(base, n) == base {
      var cut := |base| - |Suffix(n)|;
      assert base[cut..] == Suffix(n);
      if |base| < MAX_LENGTH - 1 {
        StrippedKeeps(Prefix(base, end), if end > |base| then |base| - 1 else cut + 1);
      }
    } else if |base| >= MAX_LENGTH - 1 && EndsWith(base, Suffix(n)) {
      WholeFront(base, n);
    }
  }

  /** 197 letters and "-2" are a slug that comes again as its own second candidate: with only that slug taken, two
      candidates are rejected. */
  lemma RecursExample()
    ensures
      var base := seq(197, _ => 'a') + "-2";
      && IsSlug(base) && |base| == MAX_LENGTH - 1 && Recurs(base, 2)
      && Candidate(base, 0) in {base} && Candidate(base, 1) in {base} && Candidate(base, 2) !in {base}
  {
    var base := seq(197, _ => 'a') + "-2";
    assert Decimal(2) == "2" && Suffix(2) == "-2";
    assert base[|base| - 2..] == Suffix(2);
    RecursIff(base, 2);
    assert Candidate(base, 1) == Suffixed(base, 2) == base;
    if Candidate(base, 2) == base { SuffixedAreDistinct(base, 2, 3); }
  }

  lemma WholeFront(base: string, n: nat)
    requires IsSlug(base) && MAX_LENGTH - 1 <= |base| <= MAX_LENGTH && |Decimal(n)| <= MAX_LENGTH - 2
    requires EndsWith(base, Suffix(n))
    ensures Suffixed(base, n) == base
  {
    hide Decimal;
    var cut := |base| - |Suffix(n)|;
    var front := base[..cut];
    assert base[cut] == Suffix(n)[0] == '-';
    assert Stripped(front) == front;
    if |base| < MAX_LENGTH {
      assert Prefix(base, MAX_LENGTH - |Suffix(n)|) == front + "-";
      assert (front + "-")[..|front|] == front;
    }
    assert base == front + Suffix(n);
  }

  lemma {:induction false} LongerNumbers(m: nat, n: nat)
    requires m <= n
    ensures |Decimal(m)| <= |Decimal(n)|
  {
    if n >= 10 && m >= 10 { LongerNumbers(m / 10, n / 10); }
  }

  /** Tries the base, then the suffixes from 2 on. */
  method FirstFree(base: string, taken: set<string>) returns (candidate: string, ghost tries: nat)
    ensures candidate !in taken && candidate == Candidate(base, tries)
    ensures forall k: nat :: k < tries ==> Candidate(base, k) in taken
  {
    hide Suffixed;
    tries := 0;
    candidate := base;
    var suffixNumber := 2;
    while candidate in taken
      invariant suffixNumber == tries + 2
      invariant candidate == Candidate(base, tries)
      invariant forall k: nat :: k < tries ==> Candidate(base, k) in taken
      invariant tries <= |taken| + 1
      decreases |taken| + 1 - tries
    {
      RejectedAreTaken(base, taken, tries);
      candidate := Suffixed(base, suffixNumber);
      suffixNumber := suffixNumber + 1;
      tries := tries + 1;
    }
  }

  lemma FoundIsSlug(normalized: string, taken: set<string>, tries: nat)
    requires tries <= |taken| + 1
    ensures IsNormalized(normalized) && |Decimal(|taken| + 2)| <= MAX_LENGTH - 2 ==>
      IsSlug(Candidate(Base(normalized), tries)) && |Candidate(Base(normalized), tries)| <= MAX_LENGTH
  {
    hide Base, IsSlug, Decimal, IsNormalized, Candidate;
    if IsNormalized(normalized) && |Decimal(|taken| + 2)| <= MAX_LENGTH - 2 {
      LongerNumbers(tries + 1, |taken| + 2);
      CandidatesAreSlugs(normalized, tries);
    }
  }

  /** Finds an unused slug: the first free candidate. No more candidates are rejected than slugs are taken, but
      for a base that comes again, which may be rejected twice. */
  method AssignSlug(slug: string, normalized: string, taken: set<string>) returns (chosen: string, ghost tries: nat)
    ensures slug != "" ==> chosen == slug
    ensures slug == "" ==> chosen !in taken
    ensures slug == "" ==> chosen == Candidate(Base(normalized), tries)
    ensures slug == "" ==> forall k: nat :: k < tries ==> Candidate(Base(normalized), k) in taken
    ensures tries <= |taken| + if Recurs(Base(normalized), tries) then 1 else 0
    ensures slug == "" && IsNormalized(normalized) && |Decimal(|taken| + 2)| <= MAX_LENGTH - 2 ==>
      IsSlug(chosen) && |chosen| <= MAX_LENGTH
  {
    if slug != "" {
      return slug, 0;
    }
    hide Base, IsSlug, Decimal, IsNormalized, Recurs, Candidate;
    var base := Base(normalized);
    chosen, tries := FirstFree(base, taken);
    TriesAreTaken(base, taken, tries);
    FoundIsSlug(normalized, taken, tries);
  }
}
