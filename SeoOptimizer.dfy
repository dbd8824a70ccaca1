/** lib/seoOptimizer.ts: the title, description and tag list of a listing. The tag list the
    model returns is padded from a fixed candidate list and cut to fifteen; `optimizeTags`
    deduplicates, cleans and filters a tag list. The OpenAI completion and the JSON.parse of its
    text are one abstract outcome. */
module SeoOptimizer {
  import opened Common
  import opened TrendAnalyzer

  const MaxTags := 15

  datatype SEOContent = SEOContent(title: string, description: string, tags: seq<string>)

  /** The object JSON.parse made of the completion's text; a key the model left out is None. */
  datatype ParsedSEO = ParsedSEO(title: Option<string>, description: Option<string>, tags: Option<seq<string>>)

  // ---------------------------------------------------------------------------------------
  // Padding of the parsed tag list
  // ---------------------------------------------------------------------------------------

  /** The candidates appended, in this order, to a tag list shorter than fifteen. */
  function AdditionalTags(niche: string): (c: seq<string>)
    ensures |c| == MaxTags
    ensures c[0] == niche
    ensures forall k :: 0 <= k < 7 ==> ContainsSub(c[k], niche)
    ensures c[9] == "cool"
  {
    ContainsPiece("", niche, "");
    ContainsPiece("", niche, " design");
    ContainsPiece("", niche, " art");
    ContainsPiece("", niche, " gift");
    ContainsPiece("", niche, " merch");
    ContainsPiece("", niche, " tshirt");
    ContainsPiece("", niche, " sticker");
    assert "" + niche + "" == niche;
    [ niche,
      niche + " design",
      niche + " art",
      niche + " gift",
      niche + " merch",
      niche + " tshirt",
      niche + " sticker",
      "unique design",
      "trendy",
      "cool",
      "aesthetic",
      "gift idea",
      "merchandise",
      "print design",
      "graphic design" ]
  }

  /** What the padding loop leaves in `tags` after visiting `cands` (before the final slice). */
  function Pad(tags: seq<string>, cands: seq<string>): seq<string>
    decreases |cands|
  {
    if cands == [] || |tags| >= MaxTags then tags
    else Pad(if cands[0] in tags then tags else tags + [cands[0]], cands[1..])
  }

  /** Reference definition: the candidates of `cands`, in list order, that are neither in `tags`
      nor earlier in `cands`. Unlike Pad it ignores the limit of fifteen. */
  function Fresh(tags: seq<string>, cands: seq<string>): seq<string>
    decreases |cands|
  {
    if cands == [] then []
    else if cands[0] in tags then Fresh(tags, cands[1..])
    else [cands[0]] + Fresh(tags + [cands[0]], cands[1..])
  }

  /** The tag list `generateSEOContent` returns for the parsed `tags` key. */
  function PaddedTags(parsedTags: Option<seq<string>>, niche: string): (r: seq<string>)
    ensures |r| <= MaxTags
  {
    var tags := parsedTags.GetOr([]);
    Take(if |tags| < MaxTags then Pad(tags, AdditionalTags(niche)) else tags, MaxTags)
  }

  /** The padding loop and slice of `generateSEOContent`, which extend the list in place. */
  method PadTags(parsedTags: Option<seq<string>>, niche: string) returns (tags: seq<string>)
    ensures tags == PaddedTags(parsedTags, niche)
  {
    tags := parsedTags.GetOr([]);
    if |tags| < MaxTags {
      var additionalTags := AdditionalTags(niche);
      ghost var padded := Pad(tags, additionalTags);
      var i := 0;
      while i < |additionalTags|
        invariant 0 <= i <= |additionalTags|
        invariant Pad(tags, additionalTags[i..]) == padded
      {
        if |tags| >= MaxTags {
          break;
        }
        assert additionalTags[i..][1..] == additionalTags[i + 1..];
        if additionalTags[i] !in tags {
          tags := tags + [additionalTags[i]];
        }
        i := i + 1;
      }
    }
    tags := Take(tags, MaxTags);
  }

  /** Padding stops at fifteen: it is the fresh candidates appended and cut to fifteen. */
  lemma {:induction false} PadIsCappedFresh(tags: seq<string>, cands: seq<string>)
    requires |tags| <= MaxTags
    ensures Pad(tags, cands) == Take(tags + Fresh(tags, cands), MaxTags)
    decreases |cands|
  {
    if cands == [] {
    } else if |tags| >= MaxTags {
      FullListIsCapped(tags, cands);
    } else if cands[0] in tags {
      SkipPresent(tags, cands);
      PadIsCappedFresh(tags, cands[1..]);
    } else {
      AppendNew(tags, cands);
      PadIsCappedFresh(tags + [cands[0]], cands[1..]);
    }
  }

  lemma FullListIsCapped(tags: seq<string>, cands: seq<string>)
    requires |tags| == MaxTags && cands != []
    ensures Pad(tags, cands) == tags == Take(tags + Fresh(tags, cands), MaxTags)
  {
    assert (tags + Fresh(tags, cands))[..MaxTags] == tags;
  }

  lemma SkipPresent(tags: seq<string>, cands: seq<string>)
    requires |tags| < MaxTags && cands != [] && cands[0] in tags
    ensures Pad(tags, cands) == Pad(tags, cands[1..])
    ensures Fresh(tags, cands) == Fresh(tags, cands[1..])
  {
  }

  lemma AppendNew(tags: seq<string>, cands: seq<string>)
    requires |tags| < MaxTags && cands != [] && cands[0] !in tags
    ensures Pad(tags, cands) == Pad(tags + [cands[0]], cands[1..])
    ensures tags + Fresh(tags, cands) == (tags + [cands[0]]) + Fresh(tags + [cands[0]], cands[1..])
  {
    var rest := Fresh(tags + [cands[0]], cands[1..]);
    assert Fresh(tags, cands) == [cands[0]] + rest;
    AppendAssociates(tags, [cands[0]], rest);
  }

  /** Padding never appends a tag already present, nor the same candidate twice, and appends
      only candidates. */
  lemma {:induction false} FreshIsNewAndDistinct(tags: seq<string>, cands: seq<string>)
    ensures Distinct(Fresh(tags, cands))
    ensures forall x :: x in Fresh(tags, cands) ==> x in cands && x !in tags
    decreases |cands|
  {
    if cands != [] {
      if cands[0] in tags {
        FreshIsNewAndDistinct(tags, cands[1..]);
      } else {
        var next := tags + [cands[0]];
        FreshIsNewAndDistinct(next, cands[1..]);
        assert Fresh(tags, cands) == [cands[0]] + Fresh(next, cands[1..]);
        DistinctCons(cands[0], Fresh(next, cands[1..]));
      }
    }
  }

  /** As many fresh candidates as there are distinct candidates not already in `tags`. */
  lemma {:induction false} FreshCount(tags: seq<string>, cands: seq<string>)
    ensures |Fresh(tags, cands)| == |SetOf(cands) - SetOf(tags)|
    decreases |cands|
  {
    if cands == [] {
      assert SetOf(cands) == {};
    } else if cands[0] in tags {
      FreshCount(tags, cands[1..]);
      assert SetOf(cands) - SetOf(tags) == SetOf(cands[1..]) - SetOf(tags) by {
        assert SetOf(cands) == {cands[0]} + SetOf(cands[1..]);
      }
    } else {
      var next := tags + [cands[0]];
      FreshCount(next, cands[1..]);
      var rest := SetOf(cands[1..]) - SetOf(next);
      assert SetOf(next) == SetOf(tags) + {cands[0]};
      assert SetOf(cands) == {cands[0]} + SetOf(cands[1..]);
      assert SetOf(cands) - SetOf(tags) == {cands[0]} + rest;
      assert cands[0] !in rest;
    }
  }

  /** The shape of the padded tag list: a list of fifteen or more is cut to its first fifteen; a
      shorter one stays a prefix and is followed, in candidate order, by candidates it did not
      hold, none twice, until fifteen are reached or the candidates run out. */
  lemma PaddedTagsShape(parsedTags: Option<seq<string>>, niche: string)
    ensures var tags, r := parsedTags.GetOr([]), PaddedTags(parsedTags, niche);
      && (|tags| >= MaxTags ==> r == tags[..MaxTags])
      && (|tags| < MaxTags ==> r == Take(tags + Fresh(tags, AdditionalTags(niche)), MaxTags))
      && (|tags| < MaxTags ==> tags <= r)
      && (|tags| < MaxTags ==> Distinct(r[|tags|..]))
      && (|tags| < MaxTags ==> forall x :: x in r[|tags|..] ==> x in AdditionalTags(niche) && x !in tags)
  {
    var tags, cands := parsedTags.GetOr([]), AdditionalTags(niche);
    if |tags| < MaxTags {
      PadIsCappedFresh(tags, cands);
      FreshIsNewAndDistinct(tags, cands);
      var f := Fresh(tags, cands);
      var r := PaddedTags(parsedTags, niche);
      assert r == Take(tags + f, MaxTags);
      assert r[|tags|..] <= f;
      forall i, j | 0 <= i < j < |r[|tags|..]| ensures r[|tags|..][i] != r[|tags|..][j] {
        assert r[|tags|..][i] == f[i] && r[|tags|..][j] == f[j];
      }
    }
  }

  /** The exact length: fifteen, or fewer when the distinct candidates not already present run
      out first. */
  lemma PaddedTagsLength(parsedTags: Option<seq<string>>, niche: string)
    requires |parsedTags.GetOr([])| < MaxTags
    ensures |PaddedTags(parsedTags, niche)| ==
      Min(MaxTags, |parsedTags.GetOr([])| + |SetOf(AdditionalTags(niche)) - SetOf(parsedTags.GetOr([]))|)
  {
    var tags := parsedTags.GetOr([]);
    PadIsCappedFresh(tags, AdditionalTags(niche));
    FreshCount(tags, AdditionalTags(niche));
  }

  /** When the niche collides with none of the fixed candidates, padding always reaches exactly
      fifteen tags. */
  lemma PaddingReachesFifteen(parsedTags: Option<seq<string>>, niche: string)
    requires |parsedTags.GetOr([])| < MaxTags
    requires Distinct(AdditionalTags(niche))
    ensures |PaddedTags(parsedTags, niche)| == MaxTags
  {
    var tags, cands := parsedTags.GetOr([]), AdditionalTags(niche);
    PaddedTagsLength(parsedTags, niche);
    DistinctSetSize(cands);
    SetOfSize(tags);
    var a, b := SetOf(cands), SetOf(tags);
    assert a == (a - b) + (a * b);
    assert (a - b) !! (a * b);
    SubsetSize(a * b, b);
  }

  /** A niche that repeats one of the candidates leaves an empty tag list short of fifteen. */
  lemma CollidingNicheFallsShort(niche: string)
    requires !Distinct(AdditionalTags(niche))
    ensures |PaddedTags(None, niche)| < MaxTags
  {
    var cands := AdditionalTags(niche);
    var i, j :| 0 <= i < j < |cands| && cands[i] == cands[j];
    RepeatShrinksSet(cands, i, j);
    PaddedTagsLength(None, niche);
    assert SetOf(cands) - SetOf([]) == SetOf(cands);
  }

  /** The niche "cool" is such a niche: it is both the first candidate and the tenth. */
  lemma CoolNicheFallsShort()
    ensures !Distinct(AdditionalTags("cool"))
    ensures |PaddedTags(None, "cool")| < MaxTags
  {
    var cands := AdditionalTags("cool");
    assert cands[0] == cands[9];
    CollidingNicheFallsShort("cool");
  }

  // ---------------------------------------------------------------------------------------
  // Title, description and the fallback content
  // ---------------------------------------------------------------------------------------

  function DefaultTitle(niche: string): string {
    "Amazing " + niche + " Design - Unique & Trending"
  }

  function DefaultDescription(niche: string, concept: Concept): string {
    DefaultDescriptionHead(niche) + Render(concept)
  }

  const DefaultDescriptionMiddle := " design! Perfect for anyone who loves "
  const DefaultDescriptionEnd := ". High-quality print on various products. "
  const FallbackDescriptionMiddle := ". Perfect for gifts, personal use, or showing your love for "
  const FallbackDescriptionEnd := ". High-quality print on t-shirts, stickers, phone cases, and more. Stand out with this eye-catching design that everyone will love. Makes a great gift for birthdays, holidays, or any special occasion. Order yours today!"

  function DefaultDescriptionHead(niche: string): string {
    "Check out this incredible " + niche + DefaultDescriptionMiddle + niche + DefaultDescriptionEnd
  }

  function FallbackDescriptionHead(niche: string): string {
    "Discover this unique " + niche + " design! "
  }

  function FallbackDescriptionTail(niche: string): string {
    FallbackDescriptionMiddle + niche + FallbackDescriptionEnd
  }

  function FallbackTags(niche: string): (tags: seq<string>)
    ensures |tags| == MaxTags && tags[0] == niche
  {
    [ niche,
      niche + " design",
      niche + " art",
      niche + " gift",
      niche + " tshirt",
      niche + " merch",
      "unique design",
      "cool",
      "trendy",
      "aesthetic",
      "gift idea",
      "graphic design",
      "print",
      "merchandise",
      "apparel" ]
  }

  /** The content used when the completion or its parsing throws. */
  function FallbackSEO(niche: string, concept: Concept): (c: SEOContent)
    ensures |c.tags| == MaxTags
    ensures c.title == "Amazing " + niche + " Design - Must Have!"
    ensures c.tags[0] == niche
  {
    var description := FallbackDescriptionHead(niche) + Render(concept) + FallbackDescriptionTail(niche);
    SEOContent("Amazing " + niche + " Design - Must Have!", description, FallbackTags(niche))
  }

  /** The content built from a parsed completion: a falsy title or description is replaced by
      the niche-based default, and the tags are padded. */
  function ParsedSEOContent(niche: string, concept: Concept, parsed: ParsedSEO): (c: SEOContent)
    ensures Truthy(parsed.title) ==> c.title == parsed.title.value
    ensures !Truthy(parsed.title) ==> c.title == DefaultTitle(niche)
    ensures Truthy(parsed.description) ==> c.description == parsed.description.value
    ensures !Truthy(parsed.description) ==> c.description == DefaultDescription(niche, concept)
    ensures c.tags == PaddedTags(parsed.tags, niche)
    ensures |c.tags| <= MaxTags
  {
    SEOContent(
      OrElse(parsed.title, DefaultTitle(niche)),
      OrElse(parsed.description, DefaultDescription(niche, concept)),
      PaddedTags(parsed.tags, niche))
  }

  /** What `generateSEOContent` returns for a given outcome of the completion. */
  function SEOContentOf(niche: string, concept: Concept, completion: Step<ParsedSEO>): (c: SEOContent)
    ensures |c.tags| <= MaxTags
    ensures completion.Threw? ==> |c.tags| == MaxTags
  {
    match completion
    case Threw(_) => FallbackSEO(niche, concept)
    case Done(parsed) => ParsedSEOContent(niche, concept, parsed)
  }

  /** Unless the model wrote a description of its own, the description quotes the concept. */
  lemma DescriptionMentionsConcept(niche: string, concept: Concept, completion: Step<ParsedSEO>)
    requires !(completion.Done? && Truthy(completion.value.description))
    ensures ContainsSub(SEOContentOf(niche, concept, completion).description, Render(concept))
  {
    if completion.Threw? {
      ContainsPiece(FallbackDescriptionHead(niche), Render(concept), FallbackDescriptionTail(niche));
    } else {
      ContainsPiece(DefaultDescriptionHead(niche), Render(concept), "");
      assert DefaultDescriptionHead(niche) + Render(concept) + "" == DefaultDescription(niche, concept);
    }
  }

  /** `generateSEOContent`. The keywords only shape the prompt, which is not modelled. */
  method GenerateSEOContent(niche: string, concept: Concept, keywords: seq<string>, completion: Step<ParsedSEO>)
    returns (content: SEOContent)
    ensures content == SEOContentOf(niche, concept, completion)
  {
    match completion {
      case Threw(_) =>
        content := FallbackSEO(niche, concept);
      case Done(parsed) =>
        var tags := PadTags(parsed.tags, niche);
        content := SEOContent(
          OrElse(parsed.title, DefaultTitle(niche)),
          OrElse(parsed.description, DefaultDescription(niche, concept)),
          tags);
        assert content == ParsedSEOContent(niche, concept, parsed);
    }
  }

  // ---------------------------------------------------------------------------------------
  // optimizeTags (ASCII only)
  // ---------------------------------------------------------------------------------------

  /** The ASCII characters of JavaScript's whitespace class, used by `trim` and by `\s`. */
  predicate IsWhitespace(ch: char) {
    ch == ' ' || ch == '\t' || ch == '\n' || ch == '\r' || ch == '\U{000B}' || ch == '\U{000C}'
  }

  /** The characters `/[^a-z0-9\s-]/g` leaves in place. */
  predicate IsAllowed(ch: char) {
    ('a' <= ch <= 'z') || ('0' <= ch <= '9') || IsWhitespace(ch) || ch == '-'
  }

  /** `[...new Set(tags)]`: each tag once, in order of first occurrence. */
  function Dedup(tags: seq<string>): (r: seq<string>)
    ensures Distinct(r)
    ensures SetOf(r) == SetOf(tags)
    ensures forall i :: 0 <= i < |r| ==> r[i] in tags
    ensures forall i, j :: 0 <= i < j < |r| ==> IndexOf(tags, r[i]) < IndexOf(tags, r[j])
    ensures Distinct(tags) ==> r == tags
    ensures |r| <= |tags|
    decreases |tags|
  {
    if tags == [] then []
    else
      var init, last := tags[..|tags| - 1], tags[|tags| - 1];
      assert tags == init + [last];
      assert SetOf(tags) == SetOf(init) + {last};
      IndexOfAppend(init, last);
      var d := Dedup(init);
      assert last in d <==> last in init by {
        assert last in d <==> last in SetOf(d);
        assert last in init <==> last in SetOf(init);
      }
      if last in d then d else d + [last]
  }

  function LowerChar(ch: char): char {
    if 'A' <= ch <= 'Z' then (ch as int + 32) as char else ch
  }

  /** `toLowerCase`, for ASCII letters. */
  function ToLower(s: string): (r: string)
    ensures |r| == |s|
    ensures forall i :: 0 <= i < |s| ==> !('A' <= r[i] <= 'Z')
    ensures forall i :: 0 <= i < |s| && 'A' <= s[i] <= 'Z' ==> r[i] == (s[i] as int + 32) as char
    ensures forall i :: 0 <= i < |s| && !('A' <= s[i] <= 'Z') ==> r[i] == s[i]
  {
    seq(|s|, i requires 0 <= i < |s| => LowerChar(s[i]))
  }

  /** Leading whitespace removed. */
  function TrimStart(s: string): (r: string)
    ensures |r| <= |s| && r == s[|s| - |r|..]
    ensures forall i :: 0 <= i < |s| - |r| ==> IsWhitespace(s[i])
    ensures r != [] ==> !IsWhitespace(r[0])
    decreases |s|
  {
    if s != [] && IsWhitespace(s[0]) then TrimStart(s[1..]) else s
  }

  /** Trailing whitespace removed. */
  function TrimEnd(s: string): (r: string)
    ensures |r| <= |s| && r == s[..|r|]
    ensures forall i :: |r| <= i < |s| ==> IsWhitespace(s[i])
    ensures r != [] ==> !IsWhitespace(r[|r| - 1])
    decreases |s|
  {
    if s != [] && IsWhitespace(s[|s| - 1]) then TrimEnd(s[..|s| - 1]) else s
  }

  /** `r` is the slice of `s` at `a`, and everything of `s` outside that slice is whitespace. */
  predicate TrimmedSlice(s: string, r: string, a: int) {
    && 0 <= a && a + |r| <= |s| && r == s[a..a + |r|]
    && (forall i :: 0 <= i < a ==> IsWhitespace(s[i]))
    && (forall i :: a + |r| <= i < |s| ==> IsWhitespace(s[i]))
  }

  /** `trim`: the string without whitespace at either end. */
  function Trim(s: string): (r: string)
    ensures exists a :: TrimmedSlice(s, r, a)
    ensures r != [] ==> !IsWhitespace(r[0]) && !IsWhitespace(r[|r| - 1])
    ensures forall ch :: ch in s && !IsWhitespace(ch) ==> ch in r
  {
    TrimIsInner(s);
    SliceKeepsInner(s, TrimEnd(TrimStart(s)), |s| - |TrimStart(s)|);
    TrimEnd(TrimStart(s))
  }

  lemma TrimIsInner(s: string)
    ensures TrimmedSlice(s, TrimEnd(TrimStart(s)), |s| - |TrimStart(s)|)
  {
    TrimmedSliceOf(s, TrimStart(s), TrimEnd(TrimStart(s)));
  }

  /** Leading blanks cut off to give `front`, then trailing blanks cut off `front` to give `r`. */
  lemma TrimmedSliceOf(s: string, front: string, r: string)
    requires |front| <= |s| && front == s[|s| - |front|..]
    requires forall i :: 0 <= i < |s| - |front| ==> IsWhitespace(s[i])
    requires |r| <= |front| && r == front[..|r|]
    requires forall i :: |r| <= i < |front| ==> IsWhitespace(front[i])
    ensures TrimmedSlice(s, r, |s| - |front|)
  {
    PrefixOfSuffix(s, front, r);
    TrailingBlanks(s, front, r);
  }

  lemma TrailingBlanks(s: string, front: string, r: string)
    requires |front| <= |s| && front == s[|s| - |front|..]
    requires |r| <= |front| && forall i :: |r| <= i < |front| ==> IsWhitespace(front[i])
    ensures forall i :: |s| - |front| + |r| <= i < |s| ==> IsWhitespace(s[i])
  {
    var a := |s| - |front|;
    forall i | a + |r| <= i < |s| ensures IsWhitespace(s[i]) {
      assert s[i] == front[i - a];
    }
  }

  /** Trimming keeps every non-whitespace character as many times as it occurs. */
  lemma TrimCounts(s: string, ch: char)
    requires !IsWhitespace(ch)
    ensures multiset(Trim(s))[ch] == multiset(s)[ch]
  {
    var r := Trim(s);
    var a :| TrimmedSlice(s, r, a);
    SliceCounts(s, r, a, ch);
  }

  lemma SliceCounts(s: string, r: string, a: int, ch: char)
    requires TrimmedSlice(s, r, a) && !IsWhitespace(ch)
    ensures multiset(r)[ch] == multiset(s)[ch]
  {
    var b := a + |r|;
    assert ch !in s[..a] by {
      assert forall i :: 0 <= i < a ==> s[..a][i] == s[i];
    }
    assert ch !in s[b..] by {
      assert forall i :: 0 <= i < |s| - b ==> s[b..][i] == s[b + i];
    }
    CountInMiddle(s, a, b, ch);
  }

  /** Cutting only whitespace from the ends keeps every non-whitespace character. */
  lemma SliceKeepsInner(s: string, r: string, a: int)
    requires TrimmedSlice(s, r, a)
    ensures forall ch :: ch in s && !IsWhitespace(ch) ==> ch in r
  {
    forall ch | ch in s && !IsWhitespace(ch) ensures ch in r {
      var i :| 0 <= i < |s| && s[i] == ch;
      assert r[i - a] == ch;
    }
  }

  /** `replace(/[^a-z0-9\s-]/g, '')`: every character outside the allowed class removed. */
  function StripDisallowed(s: string): (r: string)
    ensures forall ch :: ch in r ==> IsAllowed(ch)
    ensures forall ch :: ch in s && IsAllowed(ch) ==> ch in r
    ensures |r| <= |s|
    ensures (forall ch :: ch in s ==> IsAllowed(ch)) ==> r == s
    decreases |s|
  {
    if s == [] then []
    else
      assert s == [s[0]] + s[1..];
      var rest := StripDisallowed(s[1..]);
      if IsAllowed(s[0]) then [s[0]] + rest else rest
  }

  /** Stripping is an order-preserving filter: it keeps exactly the allowed characters, each
      as many times as it occurs, in their order. */
  lemma {:induction false} StripFilters(s: string)
    ensures SubsequenceOf(StripDisallowed(s), s)
    ensures forall ch :: multiset(StripDisallowed(s))[ch] == if IsAllowed(ch) then multiset(s)[ch] else 0
    decreases |s|
  {
    if s != [] {
      StripFilters(s[1..]);
      var rest := StripDisallowed(s[1..]);
      assert s == [s[0]] + s[1..];
      if IsAllowed(s[0]) {
        assert ([s[0]] + rest)[1..] == rest;
      }
    }
  }

  /** Every character of `t` is in the allowed class. */
  predicate AllAllowed(t: string) {
    forall ch :: ch in t ==> IsAllowed(ch)
  }

  /** The cleaning of one tag: lower-case, trim, strip. What is left is the lower-cased tag's
      allowed characters, in their order, each non-whitespace one as often as it occurs. */
  function CleanTag(tag: string): (r: string)
    ensures AllAllowed(r)
    ensures SubsequenceOf(r, ToLower(tag)) && |r| <= |tag|
    ensures forall ch :: IsAllowed(ch) && !IsWhitespace(ch) ==> multiset(r)[ch] == multiset(ToLower(tag))[ch]
    ensures (forall ch :: ch in tag ==> IsWhitespace(ch)) ==> r == ""
    ensures (forall ch :: ch in tag ==> IsAllowed(LowerChar(ch))) ==> r == Trim(ToLower(tag))
  {
    CleanTagKeeps(tag);
    CleanTagTrims(tag);
    StripDisallowed(Trim(ToLower(tag)))
  }

  /** The trim step of `cleanTag`: a blank tag cleans to nothing, and a tag with nothing to strip
      cleans to its lower-cased form without surrounding whitespace. */
  lemma CleanTagTrims(tag: string)
    ensures var t := Trim(ToLower(tag));
      && ((forall ch :: ch in tag ==> IsWhitespace(ch)) ==> StripDisallowed(t) == "")
      && ((forall ch :: ch in tag ==> IsAllowed(LowerChar(ch))) ==> StripDisallowed(t) == t)
  {
    var low := ToLower(tag);
    var t := Trim(low);
    var a :| TrimmedSlice(low, t, a);
    SliceChars(low, t, a);
    if forall ch :: ch in tag ==> IsWhitespace(ch) {
      LoweredBlank(tag, low);
      BlankTrimsEmpty(low, t, a);
    }
    if forall ch :: ch in tag ==> IsAllowed(LowerChar(ch)) {
      LoweredAllowed(tag, low);
    }
  }

  /** Lower-casing a blank tag leaves it blank. */
  lemma LoweredBlank(tag: string, low: string)
    requires |low| == |tag| && forall i :: 0 <= i < |tag| ==> low[i] == LowerChar(tag[i])
    requires forall ch :: ch in tag ==> IsWhitespace(ch)
    ensures forall ch :: ch in low ==> IsWhitespace(ch)
  {
    forall ch | ch in low ensures IsWhitespace(ch) {
      var i :| 0 <= i < |low| && low[i] == ch;
      assert tag[i] in tag;
    }
  }

  /** Lower-casing a tag whose lower-cased characters are all allowed gives only allowed characters. */
  lemma LoweredAllowed(tag: string, low: string)
    requires |low| == |tag| && forall i :: 0 <= i < |tag| ==> low[i] == LowerChar(tag[i])
    requires forall ch :: ch in tag ==> IsAllowed(LowerChar(ch))
    ensures forall ch :: ch in low ==> IsAllowed(ch)
  {
    forall ch | ch in low ensures IsAllowed(ch) {
      var i :| 0 <= i < |low| && low[i] == ch;
      assert tag[i] in tag;
    }
  }

  /** A trimmed slice of a blank string, starting with no blank, is empty. */
  lemma BlankTrimsEmpty(s: string, r: string, a: int)
    requires TrimmedSlice(s, r, a) && forall ch :: ch in s ==> IsWhitespace(ch)
    requires r != [] ==> !IsWhitespace(r[0])
    ensures r == []
  {
    assert forall i :: 0 <= i < |r| ==> r[i] == s[a + i];
  }

  /** Every character of a trimmed slice comes from the string it was cut from. */
  lemma SliceChars(s: string, r: string, a: int)
    requires TrimmedSlice(s, r, a)
    ensures forall ch :: ch in r ==> ch in s
  {
    forall ch | ch in r ensures ch in s {
      var i :| 0 <= i < |r| && r[i] == ch;
      assert s[a + i] == ch;
    }
  }

  lemma CleanTagKeeps(tag: string)
    ensures var low := ToLower(tag); var r := StripDisallowed(Trim(low));
      && SubsequenceOf(r, low) && |r| <= |tag|
      && forall ch :: IsAllowed(ch) && !IsWhitespace(ch) ==> multiset(r)[ch] == multiset(low)[ch]
  {
    var low := ToLower(tag);
    var t := Trim(low);
    StripFilters(t);
    var a :| TrimmedSlice(low, t, a);
    StrippedSliceOrder(low, t, StripDisallowed(t), a);
    CleanTagCounts(low, t);
  }

  lemma StrippedSliceOrder(low: string, t: string, r: string, a: int)
    requires TrimmedSlice(low, t, a) && SubsequenceOf(r, t)
    ensures SubsequenceOf(r, low)
  {
    SubsequenceOfSlice(r, t, low, a);
  }

  lemma CleanTagCounts(low: string, t: string)
    requires t == Trim(low)
    requires forall ch :: multiset(StripDisallowed(t))[ch] == if IsAllowed(ch) then multiset(t)[ch] else 0
    ensures forall ch :: IsAllowed(ch) && !IsWhitespace(ch) ==> multiset(StripDisallowed(t))[ch] == multiset(low)[ch]
  {
    forall ch | IsAllowed(ch) && !IsWhitespace(ch)
      ensures multiset(StripDisallowed(t))[ch] == multiset(low)[ch]
    {
      TrimCounts(low, ch);
    }
  }

  /** Trimming runs before stripping, so a cleaned tag can start with whitespace: when the tag
      starts with a character that is stripped, followed by whitespace, and does not end with
      whitespace, the whitespace stays at the front (`"! a"` is cleaned to `" a"`). */
  lemma StrippedEdgeLeavesBlank(tag: string)
    requires |tag| >= 2 && !IsAllowed(tag[0]) && !('A' <= tag[0] <= 'Z')
    requires IsWhitespace(tag[1]) && !IsWhitespace(tag[|tag| - 1])
    ensures CleanTag(tag) != [] && CleanTag(tag)[0] == tag[1]
  {
    var low := ToLower(tag);
    assert low[0] == tag[0] && low[1] == tag[1];
    TrimUntouched(low);
    StripFront(low);
  }

  /** A string with no whitespace at either end is its own trim. */
  lemma TrimUntouched(s: string)
    requires s != [] && !IsWhitespace(s[0]) && !IsWhitespace(s[|s| - 1])
    ensures Trim(s) == s
  {
    assert TrimStart(s) == s;
  }

  lemma StripFront(s: string)
    requires |s| >= 2 && !IsAllowed(s[0]) && IsAllowed(s[1])
    ensures StripDisallowed(s) != [] && StripDisallowed(s)[0] == s[1]
  {
    assert s[1..][0] == s[1];
  }

  /** `map(tag => ...)` with the cleaning above. */
  function CleanAll(tags: seq<string>): (r: seq<string>)
    ensures |r| == |tags|
    ensures forall i :: 0 <= i < |tags| ==> r[i] == CleanTag(tags[i])
  {
    seq(|tags|, i requires 0 <= i < |tags| => CleanTag(tags[i]))
  }

  /** `filter(tag => tag.length > 0)`. */
  function NonEmpty(tags: seq<string>): (r: seq<string>)
    ensures |r| <= |tags|
    ensures forall i :: 0 <= i < |r| ==> r[i] != "" && r[i] in tags
    decreases |tags|
  {
    if tags == [] then []
    else
      var rest := NonEmpty(tags[1..]);
      if tags[0] != "" then [tags[0]] + rest else rest
  }

  /** The filter keeps exactly the non-empty tags, each as many times as it occurs, in their
      order. */
  lemma {:induction false} NonEmptyFilters(tags: seq<string>)
    ensures SubsequenceOf(NonEmpty(tags), tags)
    ensures forall t :: multiset(NonEmpty(tags))[t] == if t != "" then multiset(tags)[t] else 0
    decreases |tags|
  {
    if tags != [] {
      NonEmptyFilters(tags[1..]);
      var rest := NonEmpty(tags[1..]);
      assert tags == [tags[0]] + tags[1..];
      if tags[0] != "" {
        assert ([tags[0]] + rest)[1..] == rest;
      }
    }
  }

  /** A non-empty tag is never filtered out. */
  lemma {:induction false} NonEmptyKeeps(tags: seq<string>, i: nat)
    requires i < |tags| && tags[i] != ""
    ensures tags[i] in NonEmpty(tags)
    decreases |tags|
  {
    if i > 0 {
      NonEmptyKeeps(tags[1..], i - 1);
    }
  }

  /** Every tag the filter keeps came out of the cleaning, so it holds only allowed characters. */
  lemma KeptTagsAllowed(unique: seq<string>)
    ensures forall i :: 0 <= i < |NonEmpty(CleanAll(unique))| ==> AllAllowed(NonEmpty(CleanAll(unique))[i])
  {
    var cleaned := CleanAll(unique);
    assert forall j :: 0 <= j < |cleaned| ==> AllAllowed(cleaned[j]);
    FilterKeepsAllowed(cleaned);
  }

  lemma FilterKeepsAllowed(cleaned: seq<string>)
    requires forall j :: 0 <= j < |cleaned| ==> AllAllowed(cleaned[j])
    ensures forall i :: 0 <= i < |NonEmpty(cleaned)| ==> AllAllowed(NonEmpty(cleaned)[i])
  {
    var kept := NonEmpty(cleaned);
    forall i | 0 <= i < |kept| ensures AllAllowed(kept[i]) {
      assert kept[i] in cleaned;
      var j :| 0 <= j < |cleaned| && cleaned[j] == kept[i];
    }
  }

  /** `optimizeTags`: at most fifteen non-empty tags made only of lower-case letters, digits,
      whitespace and `-`; they are the cleanings of the distinct input tags, in order of first
      occurrence, with the empty ones left out and only the first fifteen kept. */
  function OptimizeTags(tags: seq<string>): (r: seq<string>)
    ensures |r| <= MaxTags && |r| <= |tags|
    ensures forall i :: 0 <= i < |r| ==> r[i] != "" && AllAllowed(r[i])
    ensures SubsequenceOf(r, CleanAll(Dedup(tags)))
    ensures |r| == Min(MaxTags, |NonEmpty(CleanAll(Dedup(tags)))|)
    ensures r <= NonEmpty(CleanAll(Dedup(tags)))
  {
    var cleaned := CleanAll(Dedup(tags));
    KeptTagsAllowed(Dedup(tags));
    TakeKept(cleaned);
    Take(NonEmpty(cleaned), MaxTags)
  }

  /** The first fifteen non-empty cleanings are a subsequence of all the cleanings. */
  lemma TakeKept(cleaned: seq<string>)
    ensures SubsequenceOf(Take(NonEmpty(cleaned), MaxTags), cleaned)
  {
    var kept := NonEmpty(cleaned);
    NonEmptyFilters(cleaned);
    PrefixOfSubsequence(Take(kept, MaxTags), kept, cleaned);
  }

  /** When at most fifteen cleaned tags are non-empty, nothing is cut: every input tag whose
      cleaning is non-empty has that cleaning in the result. */
  lemma OptimizeKeepsEveryTag(tags: seq<string>, k: nat)
    requires |NonEmpty(CleanAll(Dedup(tags)))| <= MaxTags
    requires k < |tags| && CleanTag(tags[k]) != ""
    ensures CleanTag(tags[k]) in OptimizeTags(tags)
  {
    var unique := Dedup(tags);
    var cleaned := CleanAll(unique);
    var kept := NonEmpty(cleaned);
    assert tags[k] in SetOf(tags);
    assert tags[k] in SetOf(unique);
    var j :| 0 <= j < |unique| && unique[j] == tags[k];
    assert cleaned[j] == CleanTag(tags[k]);
    NonEmptyKeeps(cleaned, j);
    TakeAll(kept, MaxTags);
  }

  /** Deduplication happens before cleaning, so two different tags that differ only in the case
      of their letters both survive it and come out as the same cleaned tag twice. */
  lemma CaseVariantsSurviveDedup(a: string, b: string, k: nat)
    requires a != b && ToLower(a) == ToLower(b)
    requires k < |a| && 'a' <= ToLower(a)[k] <= 'z'
    ensures CleanTag(a) != "" && OptimizeTags([a, b]) == [CleanTag(a), CleanTag(a)]
  {
    LetterSurvivesCleaning(a, k);
    var t := CleanTag(a);
    DedupPair(a, b);
    CleanPair(a, b);
    TwiceKept(t);
  }

  /** Two different tags both survive deduplication, in order. */
  lemma DedupPair(a: string, b: string)
    requires a != b
    ensures Dedup([a, b]) == [a, b]
  {
    assert Distinct([a, b]);
  }

  lemma CleanPair(a: string, b: string)
    requires ToLower(a) == ToLower(b)
    ensures CleanAll([a, b]) == [CleanTag(a), CleanTag(a)]
  {
    var t := CleanTag(a);
    assert CleanTag(b) == t;
    var r := CleanAll([a, b]);
    assert |r| == 2 && r[0] == t && r[1] == t;
    PairEquals(r, t);
  }

  lemma PairEquals<T>(r: seq<T>, t: T)
    requires |r| == 2 && r[0] == t && r[1] == t
    ensures r == [t, t]
  {
  }

  /** A letter of the lower-cased tag is neither trimmed nor stripped. */
  lemma LetterSurvivesCleaning(a: string, k: nat)
    requires k < |a| && 'a' <= ToLower(a)[k] <= 'z'
    ensures CleanTag(a) != ""
  {
    var low := ToLower(a);
    LetterKept(low, low[k]);
  }

  lemma LetterKept(low: string, ch: char)
    requires ch in low && 'a' <= ch <= 'z'
    ensures ch in StripDisallowed(Trim(low))
  {
    assert ch in Trim(low);
  }

  lemma TwiceKept(t: string)
    requires t != ""
    ensures NonEmpty([t, t]) == [t, t]
  {
    assert [t, t][1..] == [t];
    assert NonEmpty([t]) == [t] + NonEmpty([]);
  }

  /** "Cat" and "cat" are such a pair. */
  lemma CatAndCatCollide()
    ensures var r := OptimizeTags(["Cat", "cat"]); |r| == 2 && r[0] == r[1]
  {
    var upper, lower := "Cat", "cat";
    var r := ToLower(upper);
    assert r[0] == 'c' && r[1] == 'a' && r[2] == 't';
    assert ToLower(lower) == r;
    CaseVariantsSurviveDedup(upper, lower, 0);
  }
}
