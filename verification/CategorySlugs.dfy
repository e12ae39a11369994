/** Slugs of contest categories (judge/forms.py:1161-1203): making one from a name, putting it under the
    parent's, and finding an unused one.  The validator is judge/models/contest.py:86-91. */
module CategorySlugs {
  import opened Options
  import Sets

  predicate IsLetter(c: char) {
    'a' <= c <= 'z' || '0' <= c <= '9'
  }

  predicate IsWord(c: char) {
    IsLetter(c) || c == '_'
  }

  /** The model's validator: words of one or more characters, separated by single slashes. */
  predicate IsPath(s: string) {
    && s != "" && s[0] != '/' && s[|s| - 1] != '/'
    && (forall c <- s :: IsWord(c) || c == '/')
    && forall i :: 0 <= i < |s| - 1 ==> s[i] != '/' || s[i + 1] != '/'
  }

  // ---- From a name ----

  /** `re.sub`: every longest run of such characters becomes one underscore. */
  function SubRuns(s: string, p: char -> bool): string {
    if s == "" then ""
    else if !p(s[0]) then [s[0]] + SubRuns(s[1..], p)
    else if |s| > 1 && p(s[1]) then SubRuns(s[1..], p)
    else "_" + SubRuns(s[1..], p)
  }

  function StripLeft(s: string, c: char): string {
    if s != "" && s[0] == c then StripLeft(s[1..], c) else s
  }

  function StripRight(s: string, c: char): string {
    if s != "" && s[|s| - 1] == c then StripRight(s[..|s| - 1], c) else s
  }

  function NotWord(): char -> bool { c => !IsWord(c) }

  function Underscore(): char -> bool { c => c == '_' }

  /** The two substitutions, and the stripping of underscores. */
  function Replaced(name: string): string { SubRuns(SubRuns(name, NotWord()), Underscore()) }

  function Stripped(s: string): string { StripRight(StripLeft(s, '_'), '_') }

  /** `_slugify_category_name` of a name already trimmed and in lower case. */
  function Slugify(name: string): string {
    var slug := Stripped(Replaced(name));
    if slug == "" then DEFAULT else slug
  }

  const DEFAULT := "category"

  /** The words of a text: its longest runs of letters and digits, in order. */
  function Words(s: string): (words: seq<string>)
    ensures s != "" && IsLetter(s[0]) ==> words != []
  {
    if s == "" then []
    else if !IsLetter(s[0]) then Words(s[1..])
    else if |s| > 1 && IsLetter(s[1]) then
      var rest := Words(s[1..]);
      [[s[0]] + rest[0]] + rest[1..]
    else [[s[0]]] + Words(s[1..])
  }

  /** Words joined by single underscores. */
  predicate Clean(s: string) {
    && s != "" && s[0] != '_' && s[|s| - 1] != '_'
    && (forall c <- s :: IsWord(c))
    && NoPairs(s)
  }

  predicate NoPairs(s: string) {
    forall i :: 0 <= i < |s| - 1 ==> s[i] != '_' || s[i + 1] != '_'
  }

  lemma {:induction false} SubRunsHead(s: string, p: char -> bool)
    requires s != ""
    ensures SubRuns(s, p) != "" && SubRuns(s, p)[0] == if p(s[0]) then '_' else s[0]
  {
    if |s| > 1 {
      SubRunsHead(s[1..], p);
    }
  }

  /** Replacing runs that hold no letter leaves the words as they are. */
  lemma {:induction false} SubRunsWords(s: string, p: char -> bool)
    requires forall c :: p(c) ==> !IsLetter(c)
    ensures Words(SubRuns(s, p)) == Words(s)
  {
    if s != "" {
      SubRunsWords(s[1..], p);
      if |s| > 1 {
        SubRunsHead(s[1..], p);
      }
      var rest := SubRuns(s[1..], p);
      if !p(s[0]) {
        assert ([s[0]] + rest)[1..] == rest;
      } else {
        assert ("_" + rest)[1..] == rest;
      }
    }
  }

  lemma {:induction false} WordsBefore(s: string, c: char)
    requires !IsLetter(c)
    ensures Words(s + [c]) == Words(s)
  {
    if s == "" {
      assert (s + [c])[1..] == "";
    } else {
      WordsBefore(s[1..], c);
      assert (s + [c])[1..] == s[1..] + [c];
    }
  }

  lemma {:induction false} StripWords(s: string)
    ensures Words(StripLeft(s, '_')) == Words(s) && Words(StripRight(s, '_')) == Words(s)
    decreases |s|
  {
    if s != "" {
      StripWords(s[1..]);
      var n := |s| - 1;
      StripWords(s[..n]);
      assert s == s[..n] + [s[n]];
      if s[n] == '_' {
        WordsBefore(s[..n], '_');
      }
    }
  }

  lemma {:induction false} OnlyWords(s: string)
    ensures forall c <- SubRuns(s, NotWord()) :: IsWord(c)
  {
    if s != "" {
      OnlyWords(s[1..]);
    }
  }

  lemma {:induction false} SinglesOnly(s: string)
    requires forall c <- s :: IsWord(c)
    ensures var r := SubRuns(s, Underscore());
            && (forall c <- r :: IsWord(c)) && NoPairs(r)
            && (r != "" && r[0] == '_' ==> s[0] == '_')
            && (r == "" <==> s == "")
  {
    if s != "" {
      SinglesOnly(s[1..]);
    }
  }

  lemma StripLeftCleans(s: string)
    requires (forall c <- s :: IsWord(c)) && NoPairs(s)
    ensures var r := StripLeft(s, '_');
            (forall c <- r :: IsWord(c)) && NoPairs(r) && (r != "" ==> r[0] != '_')
  {}

  lemma {:induction false} StripRightCleans(s: string)
    requires (forall c <- s :: IsWord(c)) && NoPairs(s) && (s != "" ==> s[0] != '_')
    ensures var r := StripRight(s, '_'); r == "" || Clean(r)
    decreases |s|
  {
    if s != "" && s[|s| - 1] == '_' {
      StripRightCleans(s[..|s| - 1]);
    }
  }

  lemma StrippedCleans(name: string)
    ensures Stripped(Replaced(name)) == "" || Clean(Stripped(Replaced(name)))
  {
    OnlyWords(name);
    SinglesOnly(SubRuns(name, NotWord()));
    StripLeftCleans(Replaced(name));
    StripRightCleans(StripLeft(Replaced(name), '_'));
  }

  lemma StrippedWords(name: string)
    ensures Words(Stripped(Replaced(name))) == Words(name)
  {
    SubRunsWords(name, NotWord());
    SubRunsWords(SubRuns(name, NotWord()), Underscore());
    StripWords(Replaced(name));
    StripWords(StripLeft(Replaced(name), '_'));
  }

  lemma CleanIsPath(s: string)
    requires Clean(s)
    ensures IsPath(s) && Words(s) != []
  {
    forall i | 0 <= i < |s|
      ensures IsWord(s[i])
    {
      assert s[i] in s;
    }
  }

  lemma DefaultCleans()
    ensures Clean(DEFAULT) && Words(DEFAULT) == [DEFAULT]
  {
    AllLetters(DEFAULT);
  }

  /** Whatever the name, its slug is words joined by single underscores, and they are the words of the name; only
      a name without any gets the default. */
  lemma SlugifyCleans(name: string)
    ensures Clean(Slugify(name)) && IsPath(Slugify(name))
    ensures Words(Slugify(name)) == if Words(name) == [] then [DEFAULT] else Words(name)
  {
    StrippedCleans(name);
    StrippedWords(name);
    DefaultCleans();
    CleanIsPath(Slugify(name));
  }

  lemma {:induction false} AllLetters(s: string)
    requires s != "" && forall c <- s :: IsLetter(c)
    ensures Words(s) == [s]
  {
    if |s| == 1 {
      assert s[1..] == "" && s == [s[0]];
    } else {
      AllLetters(s[1..]);
      assert s == [s[0]] + s[1..];
    }
  }

  lemma {:induction false} NothingToSub(s: string, p: char -> bool)
    requires forall i :: 0 <= i < |s| && p(s[i]) ==> s[i] == '_' && (i + 1 < |s| ==> !p(s[i + 1]))
    ensures SubRuns(s, p) == s
  {
    if s != "" {
      NothingToSub(s[1..], p);
    }
  }

  /** Making a slug of a slug changes nothing. */
  lemma SlugifyFixed(s: string)
    requires Clean(s)
    ensures Slugify(s) == s
  {
    NothingToSub(s, NotWord());
    NothingToSub(s, Underscore());
  }

  // ---- Under the parent's slug ----

  function WithParentPrefix(slug: string, parent: Option<string>): string {
    if parent.None? then slug
    else
      var prefix := parent.value + "/";
      if prefix <= slug then slug else prefix + StripLeft(slug, '/')
  }

  /** The slug is put under the parent's, unless it is there already, and stays one the validator accepts. */
  lemma PrefixIsPath(slug: string, parent: Option<string>)
    requires IsPath(slug) && (parent.Some? ==> IsPath(parent.value))
    ensures IsPath(WithParentPrefix(slug, parent))
    ensures parent.Some? ==> parent.value + "/" <= WithParentPrefix(slug, parent)
    ensures WithParentPrefix(WithParentPrefix(slug, parent), parent) == WithParentPrefix(slug, parent)
  {}

  // ---- An unused one ----

  function Digit(n: nat): (c: char)
    requires n < 10
    ensures '0' <= c <= '9'
  {
    '0' + n as char
  }

  function Decimal(n: nat): (s: string)
    ensures s != "" && forall c <- s :: '0' <= c <= '9'
  {
    if n < 10 then [Digit(n)] else Decimal(n / 10) + [Digit(n % 10)]
  }

  /** Reading a number back. */
  function Parse(s: string): int {
    if s == "" then 0 else Parse(s[..|s| - 1]) * 10 + (s[|s| - 1] as int - '0' as int)
  }

  lemma {:induction false} ParseDecimal(n: nat)
    ensures Parse(Decimal(n)) == n
  {
    if n < 10 {
      assert [Digit(n)][..0] == "";
    } else {
      ParseDecimal(n / 10);
      var s := Decimal(n);
      assert s[..|s| - 1] == Decimal(n / 10);
    }
  }

  /** The candidates in the order they are tried: the slug itself, then with `_2`, `_3` and so on. */
  function Candidate(slug: string, k: nat): string {
    if k == 0 then slug else slug + "_" + Decimal(k + 1)
  }

  lemma CandidatesDiffer(slug: string, i: nat, k: nat)
    requires i != k
    ensures Candidate(slug, i) != Candidate(slug, k)
  {
    ParseDecimal(i + 1);
    ParseDecimal(k + 1);
    var n := |slug + "_"|;
    assert i != 0 ==> Candidate(slug, i)[n..] == Decimal(i + 1);
    assert k != 0 ==> Candidate(slug, k)[n..] == Decimal(k + 1);
  }

  lemma CandidateIsPath(slug: string, k: nat)
    requires IsPath(slug)
    ensures IsPath(Candidate(slug, k)) && slug <= Candidate(slug, k)
  {
    var r := Candidate(slug, k);
    forall i | 0 <= i < |r| - 1
      ensures r[i] != '/' || r[i + 1] != '/'
    {
      if i + 1 > |slug| {
        assert r[i + 1] in Decimal(k + 1);
      }
    }
  }

  function Tried(slug: string, k: nat): set<string> {
    if k == 0 then {} else Tried(slug, k - 1) + {Candidate(slug, k - 1)}
  }

  lemma {:induction false} TriedSize(slug: string, k: nat, n: nat)
    requires k <= n
    ensures |Tried(slug, k)| == k && Candidate(slug, n) !in Tried(slug, k)
  {
    if k != 0 {
      TriedSize(slug, k - 1, k - 1);
      TriedSize(slug, k - 1, n);
      CandidatesDiffer(slug, k - 1, n);
    }
  }

  /** The loop of `save`.  It ends because every candidate it rejects is one more of the finitely many slugs in
      use. */
  method UnusedSlug(slug: string, used: set<string>) returns (candidate: string, ghost k: nat)
    ensures candidate == Candidate(slug, k) && candidate !in used
    ensures forall i :: 0 <= i < k ==> Candidate(slug, i) in used
    ensures k <= |used|
  {
    candidate := slug;
    var suffix := 2;
    k := 0;
    while candidate in used
      invariant suffix == k + 2 && candidate == Candidate(slug, k)
      invariant forall i :: 0 <= i < k ==> Candidate(slug, i) in used
      invariant Tried(slug, k) <= used && k <= |used|
      decreases |used| - k
    {
      TriedSize(slug, k, k);
      TriedSize(slug, k + 1, k + 1);
      Sets.SubsetSize(Tried(slug, k + 1), used);
      candidate := slug + "_" + Decimal(suffix);
      suffix := suffix + 1;
      k := k + 1;
    }
  }
}
