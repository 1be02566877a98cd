/** Building output file names from customer and agency names: replacing
    each space with an underscore, and the stricter sanitising step that then
    drops every character other than a letter, a digit or an underscore.

    "Letter or digit" is the ASCII range; Python's `str.isalnum` also accepts
    letters and digits of other scripts. */
module Filenames {

  predicate IsAlnum(c: char) {
    ('a' <= c <= 'z') || ('A' <= c <= 'Z') || ('0' <= c <= '9')
  }

  /** The characters a sanitised name may hold. */
  predicate IsSafe(c: char) { IsAlnum(c) || c == '_' }

  predicate AllSafe(s: string) { forall i :: 0 <= i < |s| ==> IsSafe(s[i]) }

  lemma AllSafeConcat(a: string, b: string)
    requires AllSafe(a) && AllSafe(b)
    ensures AllSafe(a + b)
  {
    forall i | 0 <= i < |a + b| ensures IsSafe((a + b)[i]) {
      if i >= |a| {
        assert (a + b)[i] == b[i - |a|];
      }
    }
  }

  /** Each space becomes '_'; every other character stays where it is. */
  function ReplaceSpaces(s: string): (r: string)
    ensures |r| == |s|
    ensures forall i :: 0 <= i < |s| ==> r[i] == (if s[i] == ' ' then '_' else s[i])
  {
    if s == [] then [] else [if s[0] == ' ' then '_' else s[0]] + ReplaceSpaces(s[1..])
  }

  /** The safe characters of `s`, in their order. */
  function KeepSafe(s: string): (r: string)
    ensures AllSafe(r) && |r| <= |s|
  {
    if s == [] then []
    else if IsSafe(s[0]) then [s[0]] + KeepSafe(s[1..])
    else KeepSafe(s[1..])
  }

  /** Replace spaces with '_', then keep only letters, digits and '_'. */
  function Sanitize(s: string): (r: string)
    ensures AllSafe(r) && |r| <= |s|
  {
    KeepSafe(ReplaceSpaces(s))
  }

  lemma {:induction false} KeepSafeConcat(a: string, b: string)
    ensures KeepSafe(a + b) == KeepSafe(a) + KeepSafe(b)
  {
    if a == [] {
      assert a + b == b;
    } else {
      assert (a + b)[0] == a[0] && (a + b)[1..] == a[1..] + b;
      KeepSafeConcat(a[1..], b);
    }
  }

  /** Sanitising works character by character: the pieces of a name are sanitised
      independently and their results stay in order. */
  lemma SanitizeConcat(a: string, b: string)
    ensures Sanitize(a + b) == Sanitize(a) + Sanitize(b)
  {
    ReplaceSpacesConcat(a, b);
    KeepSafeConcat(ReplaceSpaces(a), ReplaceSpaces(b));
  }

  /** Replacing spaces works piece by piece. */
  lemma {:induction false} ReplaceSpacesConcat(a: string, b: string)
    ensures ReplaceSpaces(a + b) == ReplaceSpaces(a) + ReplaceSpaces(b)
  {
    if a == [] {
      assert a + b == b;
    } else {
      assert (a + b)[0] == a[0] && (a + b)[1..] == a[1..] + b;
      ReplaceSpacesConcat(a[1..], b);
    }
  }


  /** A space becomes exactly one '_', a letter, digit or '_' is kept, and anything else
      is dropped. */
  lemma SanitizeChar(c: char)
    ensures Sanitize([c]) == if c == ' ' then "_" else if IsSafe(c) then [c] else []
  {
    assert ReplaceSpaces([c]) == [if c == ' ' then '_' else c];
  }

  /** A name is left unchanged by sanitising exactly when it already holds only
      letters, digits and '_'. */
  lemma SanitizeFixpoint(s: string)
    ensures Sanitize(s) == s <==> AllSafe(s)
  {
    if AllSafe(s) {
      assert ReplaceSpaces(s) == s;
      KeepSafeOfSafe(s);
    }
  }

  lemma {:induction false} KeepSafeOfSafe(s: string)
    requires AllSafe(s)
    ensures KeepSafe(s) == s
  {
    if s != [] {
      KeepSafeOfSafe(s[1..]);
    }
  }

  /** Sanitising twice gives the same name as sanitising once. */
  lemma SanitizeIdempotent(s: string)
    ensures Sanitize(Sanitize(s)) == Sanitize(s)
  {
    SanitizeFixpoint(Sanitize(s));
  }

  /** How many of each character survive: every space and every '_' of the input gives
      one '_', every letter and digit is kept as often as it occurs, and nothing else
      remains. */
  lemma {:induction false} SanitizeCounts(s: string, c: char)
    ensures c == '_' ==> multiset(Sanitize(s))[c] == multiset(s)[' '] + multiset(s)['_']
    ensures IsAlnum(c) ==> multiset(Sanitize(s))[c] == multiset(s)[c]
    ensures !IsSafe(c) ==> multiset(Sanitize(s))[c] == 0
  {
    if s != [] {
      assert s == [s[0]] + s[1..];
      SanitizeConcat([s[0]], s[1..]);
      SanitizeChar(s[0]);
      SanitizeCounts(s[1..], c);
    } else {
      assert Sanitize(s) == [];
    }
    if !IsSafe(c) {
      assert c !in multiset(Sanitize(s));
    }
  }

  /** Two words and a trailing mark, as in "Eco Tours!": the space between the words
      turns into '_' and the mark goes, giving "Eco_Tours". */
  lemma SanitizeTwoWords(first: string, second: string, mark: char)
    requires AllSafe(first) && AllSafe(second)
    requires !IsSafe(mark) && mark != ' '
    ensures Sanitize(first + " " + second + [mark]) == first + "_" + second
  {
    SanitizeFixpoint(first);
    SanitizeFixpoint(second);
    SanitizeChar(' ');
    SanitizeChar(mark);
    SanitizeConcat(first, " ");
    SanitizeConcat(first + " ", second);
    SanitizeConcat(first + " " + second, [mark]);
  }

  /** Initials, as in "A. B.": the dots go and the space between them becomes '_',
      giving "A_B". */
  lemma SanitizeInitials(a: char, b: char)
    requires IsAlnum(a) && IsAlnum(b)
    ensures Sanitize([a, '.', ' ', b, '.']) == [a, '_', b]
  {
    SanitizeChar(a);
    SanitizeChar('.');
    SanitizeChar(' ');
    SanitizeChar(b);
    assert [a, '.', ' ', b, '.'] == [a] + ['.'] + [' '] + [b] + ['.'];
    SanitizeConcat([a], ['.']);
    SanitizeConcat([a] + ['.'], [' ']);
    SanitizeConcat([a] + ['.'] + [' '], [b]);
    SanitizeConcat([a] + ['.'] + [' '] + [b], ['.']);
  }
}
