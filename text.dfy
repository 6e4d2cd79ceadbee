/** Query text handling: the character classes of Python's `re` and `str`
    that the engine relies on, `_normalize_query`, `str.strip` and the
    substring test behind `phrase in normalized_query`. */
module Text {

  /** Python's whitespace (`str.isspace`, `str.strip` and the regex class
      `\s` on `str` patterns all use the same table). */
  predicate IsSpace(c: char) {
    var k := c as int;
    (0x09 <= k <= 0x0D) || (0x1C <= k <= 0x20) || k == 0x85 || k == 0xA0 ||
    k == 0x1680 || (0x2000 <= k <= 0x200A) || k == 0x2028 || k == 0x2029 ||
    k == 0x202F || k == 0x205F || k == 0x3000
  }

  predicate IsUpper(c: char) { 'A' <= c <= 'Z' }

  /** The regex class `\w`, restricted to ASCII: letters, digits, underscore. */
  predicate IsWordChar(c: char) {
    ('a' <= c <= 'z') || ('A' <= c <= 'Z') || ('0' <= c <= '9') || c == '_'
  }

  /** A character that survives `re.sub(r'[^\w\s]', '', ...)`. */
  predicate IsKept(c: char) { IsWordChar(c) || IsSpace(c) }

  function LowerChar(c: char): (r: char)
    ensures !IsUpper(r)
    ensures IsWordChar(r) <==> IsWordChar(c)
    ensures IsSpace(r) <==> IsSpace(c)
    ensures !IsUpper(c) ==> r == c
    ensures IsUpper(c) ==> 'a' <= r <= 'z' && r as int - 'a' as int == c as int - 'A' as int
  {
    if IsUpper(c) then (c as int + 32) as char else c
  }

  /** `str.lower()`: every upper-case letter becomes lower-case, nothing else moves. */
  function Lower(s: string): (r: string)
    ensures |r| == |s|
    ensures forall i :: 0 <= i < |r| ==> !IsUpper(r[i])
    ensures forall i :: 0 <= i < |r| ==> (IsKept(r[i]) <==> IsKept(s[i]))
    ensures (forall i :: 0 <= i < |s| ==> !IsUpper(s[i])) ==> r == s
    ensures forall i :: 0 <= i < |s| && IsUpper(s[i]) ==>
              'a' <= r[i] <= 'z' && r[i] as int - 'a' as int == s[i] as int - 'A' as int
    ensures forall i :: 0 <= i < |s| && !IsUpper(s[i]) ==> r[i] == s[i]
  {
    seq(|s|, i requires 0 <= i < |s| => LowerChar(s[i]))
  }

  lemma LowerAppend(a: string, b: string)
    ensures Lower(a + b) == Lower(a) + Lower(b)
  {
  }

  /** `re.sub(r'[^\w\s]', '', s)`: drop every character that is neither a
      word character nor whitespace, keeping the order of the rest. */
  function RemovePunctuation(s: string): (r: string)
    ensures |r| <= |s|
    ensures forall i :: 0 <= i < |r| ==> IsKept(r[i])
    ensures forall c :: c in r ==> c in s
    ensures (forall i :: 0 <= i < |s| ==> IsKept(s[i])) ==> r == s
    ensures r == [] <==> forall i :: 0 <= i < |s| ==> !IsKept(s[i])
  {
    if s == [] then []
    else if IsKept(s[0]) then [s[0]] + RemovePunctuation(s[1..])
    else RemovePunctuation(s[1..])
  }

  /** Punctuation removal works character by character, so it distributes
      over concatenation. */
  lemma {:induction false} RemovePunctuationAppend(a: string, b: string)
    ensures RemovePunctuation(a + b) == RemovePunctuation(a) + RemovePunctuation(b)
  {
    if a != [] {
      assert (a + b)[1..] == a[1..] + b;
      RemovePunctuationAppend(a[1..], b);
    } else {
      assert a + b == b;
    }
  }

  /** `str.lstrip()`: drop leading whitespace. */
  function TrimStart(s: string): (r: string)
    ensures |r| <= |s| && r == s[|s| - |r|..]
    ensures r == [] || !IsSpace(r[0])
    ensures forall i :: 0 <= i < |s| - |r| ==> IsSpace(s[i])
  {
    if s != [] && IsSpace(s[0]) then TrimStart(s[1..]) else s
  }

  /** `str.rstrip()`: drop trailing whitespace. */
  function TrimEnd(s: string): (r: string)
    ensures |r| <= |s| && r == s[..|r|]
    ensures r == [] || !IsSpace(r[|r| - 1])
    ensures forall i :: |r| <= i < |s| ==> IsSpace(s[i])
  {
    if s != [] && IsSpace(s[|s| - 1]) then TrimEnd(s[..|s| - 1]) else s
  }

  /** `str.strip()`. */
  function Strip(s: string): (r: string)
    ensures r == [] || (!IsSpace(r[0]) && !IsSpace(r[|r| - 1]))
    ensures forall c :: c in r ==> c in s
  {
    TrimEnd(TrimStart(s))
  }

  /** `ChatbotCore._normalize_query`: lower-case, remove punctuation, strip. */
  function Normalize(query: string): (r: string)
    ensures forall i :: 0 <= i < |r| ==> (IsWordChar(r[i]) && !IsUpper(r[i])) || IsSpace(r[i])
    ensures r == [] || (!IsSpace(r[0]) && !IsSpace(r[|r| - 1]))
  {
    var lowered := Lower(query);
    var cleaned := RemovePunctuation(lowered);
    assert forall c :: c in cleaned ==> !IsUpper(c);
    Strip(cleaned)
  }

  lemma {:induction false} StripIsEmptyIff(s: string)
    ensures Strip(s) == [] <==> forall i :: 0 <= i < |s| ==> IsSpace(s[i])
  {
    var t := TrimStart(s);
    if Strip(s) == [] {
      // the trailing trim left nothing, and t does not start with a space
      assert t == [];
    } else {
      var r := Strip(s);
      assert r[0] in s;
    }
  }

  /** Stripping a string that has no surrounding whitespace changes nothing. */
  lemma {:induction false} StripStripped(s: string)
    requires s == [] || (!IsSpace(s[0]) && !IsSpace(s[|s| - 1]))
    ensures Strip(s) == s
  {
    assert TrimStart(s) == s;
  }

  /** Applying `_normalize_query` twice gives the same result as once. */
  lemma NormalizeIdempotent(query: string)
    ensures Normalize(Normalize(query)) == Normalize(query)
  {
    NormalFormIsFixed(Normalize(query));
  }

  /** A string of lower-case word characters and spaces without surrounding
      whitespace is its own normal form. */
  lemma NormalFormIsFixed(n: string)
    requires forall i :: 0 <= i < |n| ==> (IsWordChar(n[i]) && !IsUpper(n[i])) || IsSpace(n[i])
    requires n == [] || (!IsSpace(n[0]) && !IsSpace(n[|n| - 1]))
    ensures Normalize(n) == n
  {
    assert Lower(n) == n;
    assert RemovePunctuation(n) == n;
    StripStripped(n);
  }

  /** A capitalised run of lower-case words followed by "!" normalises to
      the same words in lower case without the mark. */
  lemma NormalizeSentence(s: string, n: string)
    requires |s| >= 2 && IsUpper(s[0]) && s[|s| - 1] == '!' && s[|s| - 2] != ' '
    requires forall i :: 1 <= i < |s| - 1 ==> ('a' <= s[i] <= 'z') || s[i] == ' '
    requires n == [LowerChar(s[0])] + s[1..|s| - 1]
    ensures Normalize(s) == n
  {
    assert s == [s[0]] + s[1..|s| - 1] + "!";
    NormalizeCapitalised(s[0], s[1..|s| - 1]);
  }

  lemma NormalizeCapitalised(first: char, rest: string)
    requires IsUpper(first)
    requires forall i :: 0 <= i < |rest| ==> ('a' <= rest[i] <= 'z') || rest[i] == ' '
    requires rest == [] || rest[|rest| - 1] != ' '
    ensures Normalize([first] + rest + "!") == [LowerChar(first)] + rest
  {
    var n := [LowerChar(first)] + rest;
    LowerCapitalised(first, rest);
    DropFinalMark(n);
    StripStripped(n);
  }

  lemma LowerCapitalised(first: char, rest: string)
    requires forall i :: 0 <= i < |rest| ==> !IsUpper(rest[i])
    ensures Lower([first] + rest + "!") == [LowerChar(first)] + rest + "!"
  {
    assert [first] + rest + "!" == [first] + (rest + "!");
    LowerAppend([first], rest + "!");
    LowerAppend(rest, "!");
  }

  lemma DropFinalMark(n: string)
    requires forall i :: 0 <= i < |n| ==> IsKept(n[i])
    ensures RemovePunctuation(n + "!") == n
  {
    RemovePunctuationAppend(n, "!");
    assert RemovePunctuation("!") == [];
  }

  /** The normalised query is empty exactly when the lower-cased query has no
      word character: punctuation and whitespace alone normalise to "". */
  lemma NormalizeIsEmptyIff(query: string)
    ensures Normalize(query) == [] <==> forall i :: 0 <= i < |query| ==> !IsWordChar(query[i])
  {
    if i :| 0 <= i < |query| && IsWordChar(query[i]) {
      WordCharSurvivesNormalize(query, i);
    }
    if Normalize(query) != [] {
      NormalFormComesFromWordChar(query);
    }
  }

  lemma WordCharSurvivesNormalize(query: string, i: nat)
    requires i < |query| && IsWordChar(query[i])
    ensures Normalize(query) != []
  {
    var lowered := Lower(query);
    assert lowered[i] == LowerChar(query[i]);
    RemovePunctuationKeepsWord(lowered, i);
    var cleaned := RemovePunctuation(lowered);
    var j :| 0 <= j < |cleaned| && cleaned[j] == lowered[i];
    assert !IsSpace(cleaned[j]);
    StripIsEmptyIff(cleaned);
  }

  lemma NormalFormComesFromWordChar(query: string)
    requires Normalize(query) != []
    ensures exists i :: 0 <= i < |query| && IsWordChar(query[i])
  {
    var lowered := Lower(query);
    var cleaned := RemovePunctuation(lowered);
    StripIsEmptyIff(cleaned);
    var j :| 0 <= j < |cleaned| && !IsSpace(cleaned[j]);
    assert cleaned[j] in lowered;
    var i :| 0 <= i < |lowered| && lowered[i] == cleaned[j];
    assert lowered[i] == LowerChar(query[i]);
    assert IsWordChar(query[i]);
  }

  /** Every word character of the input survives punctuation removal. */
  lemma {:induction false} RemovePunctuationKeepsWord(s: string, i: nat)
    requires i < |s| && IsWordChar(s[i])
    ensures s[i] in RemovePunctuation(s)
  {
    if i > 0 {
      RemovePunctuationKeepsWord(s[1..], i - 1);
    }
  }

  /** Executable form of Python's `p in s` on strings. */
  function Contains(s: string, p: string): (b: bool)
    ensures p == [] ==> b
    ensures p <= s ==> b
    ensures b ==> |p| <= |s|
    decreases |s|
  {
    if |p| > |s| then false
    else if s[..|p|] == p then true
    else Contains(s[1..], p)
  }

  /** `p` occurs in `s` at some position. */
  ghost predicate IsSubstring(p: string, s: string) {
    exists k :: OccursAt(p, s, k)
  }

  /** `p` occurs in `s` starting at index `k`. */
  ghost predicate OccursAt(p: string, s: string, k: int) {
    0 <= k <= |s| - |p| && s[k..k + |p|] == p
  }

  /** The executable test agrees with the positional definition, both ways. */
  lemma {:induction false} ContainsIff(s: string, p: string)
    ensures Contains(s, p) <==> IsSubstring(p, s)
    decreases |s|
  {
    if |p| > |s| {
    } else if s[..|p|] == p {
      assert OccursAt(p, s, 0);
    } else {
      ContainsIff(s[1..], p);
      forall k | OccursAt(p, s[1..], k)
        ensures OccursAt(p, s, k + 1)
      {
      }
      forall k | OccursAt(p, s, k)
        ensures OccursAt(p, s[1..], k - 1)
      {
        assert k != 0;
      }
    }
  }

  /** Substring occurrence is transitive: whatever contains `p` contains every
      substring of `p`. */
  lemma ContainsTransitive(s: string, p: string, q: string)
    requires Contains(s, p) && Contains(p, q)
    ensures Contains(s, q)
  {
    ContainsIff(s, p);
    ContainsIff(p, q);
    var k :| OccursAt(p, s, k);
    var m :| OccursAt(q, p, m);
    forall i | 0 <= i < |q| ensures s[k + m + i] == q[i] {
      assert q[i] == p[m + i] == s[k..k + |p|][m + i];
    }
    assert s[k + m..k + m + |q|] == q;
    assert OccursAt(q, s, k + m);
    ContainsIff(s, q);
  }
}
