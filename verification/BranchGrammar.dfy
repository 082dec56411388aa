/** The branch grammar: `<type>/<PROJECT>-<number>-<slug>`, and the keyless release versions. */
module BranchGrammar {
  import opened Text

  datatype Code =
    | ShapeInvalid | TypeUnknown | KeyMissing | KeyNotCanonical | ProjectMismatch | SlugInvalid | ReleaseInvalid

  predicate Upper(c: char) { 'A' <= c <= 'Z' }

  predicate Lower(c: char) { 'a' <= c <= 'z' }

  /** The letters, one by one. */
  lemma {:induction false} LetterForms(c: char)
    ensures Upper(c) <==> c in "ABCDEFGHIJKLMNOPQRSTUVWXYZ"
    ensures Lower(c) <==> c in "abcdefghijklmnopqrstuvwxyz"
  {}

  // ---------------------------------------------------------------- the grammar

  predicate Digits(s: string) { s != "" && forall i :: 0 <= i < |s| ==> IsDigit(s[i]) }

  /** A positive number without leading zeros. */
  predicate Number(s: string) { Digits(s) && s[0] != '0' }

  predicate Project(s: string) { s != "" && Upper(s[0]) && forall i :: 0 <= i < |s| ==> Upper(s[i]) || IsDigit(s[i]) }

  predicate LowerProject(s: string) {
    s != "" && Lower(s[0]) && forall i :: 0 <= i < |s| ==> Lower(s[i]) || IsDigit(s[i])
  }

  /** Words of small letters and digits, with one dash between two words. */
  predicate Slug(s: string) {
    && s != "" && s[0] != '-' && s[|s| - 1] != '-'
    && (forall i :: 0 <= i < |s| ==> Lower(s[i]) || IsDigit(s[i]) || s[i] == '-')
    && (forall i :: 0 < i < |s| && s[i] == '-' ==> s[i - 1] != '-')
  }

  ghost predicate Release(branch: string) {
    exists a, b, c :: Digits(a) && Digits(b) && Digits(c) && branch == ReleaseText(a, b, c)
  }

  function ReleaseText(a: string, b: string, c: string): string { "releases/v" + a + "." + b + "." + c }

  /** What follows the type in a branch that names some project's task: the key, then anything but a digit. */
  predicate Keyed(rest: string, project: string, number: string, tail: string) {
    Project(project) && Number(number) && !(tail != "" && IsDigit(tail[0])) && rest == project + "-" + number + tail
  }

  predicate LowerKeyed(rest: string, project: string, number: string, tail: string) {
    LowerProject(project) && Number(number) && (tail == "" || tail[0] == '-') && rest == project + "-" + number + tail
  }

  ghost predicate LowercaseKey(rest: string) { exists p, n, tail :: LowerKeyed(rest, p, n, tail) }

  predicate Typed(branch: string, kind: string, rest: string) { '/' !in kind && branch == kind + "/" + rest }

  predicate KeyedBranch(branch: string, kind: string, project: string, number: string, slug: string) {
    Typed(branch, kind, project + "-" + number + "-" + slug) && Project(project) && Number(number) && Slug(slug)
  }

  ghost predicate Canonical(branch: string, project: string, types: seq<string>) {
    || ("releases" in types && Release(branch))
    || (exists kind, number, slug :: kind in types && KeyedBranch(branch, kind, project, number, slug))
  }

  predicate StartsUpper(s: string) { s != "" && Upper(s[0]) }

  /** What each refusal says about a branch whose type and rest are these. */
  ghost predicate RestMeans(code: Code, branch: string, kind: string, rest: string, project: string) {
    match code
    case ReleaseInvalid => kind == "releases" && !Release(branch) && !StartsUpper(rest) && !LowercaseKey(rest)
    case KeyMissing => kind != "releases" && !StartsUpper(rest) && !LowercaseKey(rest)
    case ProjectMismatch => exists p, n, tail :: Keyed(rest, p, n, tail) && p != project
    case SlugInvalid =>
      exists n, tail :: Keyed(rest, project, n, tail) && (tail == "" || (tail[0] == '-' && !Slug(tail[1..])))
    case KeyNotCanonical =>
      || (!StartsUpper(rest) && LowercaseKey(rest))
      || (StartsUpper(rest) && forall p, n, tail :: Keyed(rest, p, n, tail) ==>
        p == project && tail != "" && tail[0] != '-')
    case _ => false
  }

  /** What the answer says about a branch; no answer means a canonical branch. */
  ghost predicate Explains(answer: Option<Code>, branch: string, project: string, types: seq<string>) {
    match answer
    case None => Canonical(branch, project, types)
    case Some(ShapeInvalid) => '/' !in branch
    case Some(TypeUnknown) => exists kind, rest :: Typed(branch, kind, rest) && kind !in types
    case Some(code) => exists kind, rest ::
      Typed(branch, kind, rest) && kind in types && RestMeans(code, branch, kind, rest, project)
  }

  // ---------------------------------------------------------------- the scanner

  /** The number of leading characters of a class. */
  function Run(s: string, accepts: char -> bool): (n: nat)
    ensures n <= |s| && (forall i :: 0 <= i < n ==> accepts(s[i])) && (n < |s| ==> !accepts(s[n]))
  {
    if s != "" && accepts(s[0]) then 1 + Run(s[1..], accepts) else 0
  }

  lemma {:induction false} RunIs(s: string, run: string, tail: string, accepts: char -> bool)
    requires s == run + tail && (forall i :: 0 <= i < |run| ==> accepts(run[i])) && !(tail != "" && accepts(tail[0]))
    ensures Run(s, accepts) == |run|
    decreases |run|
  {
    if run != "" {
      assert s[0] == run[0] && s[1..] == run[1..] + tail;
      RunIs(s[1..], run[1..], tail, accepts);
    } else {
      assert s == tail;
    }
  }

  predicate NotSlash(c: char) { c != '/' }

  predicate UpperOrDigit(c: char) { Upper(c) || IsDigit(c) }

  predicate LowerOrDigit(c: char) { Lower(c) || IsDigit(c) }

  /** `re.fullmatch` of the release pattern: three digit runs, two dots, nothing else. */
  predicate ReleaseMatch(branch: string) { StartsWith(branch, "releases/v") && VersionMatch(branch[10..]) }

  predicate VersionMatch(major: string) {
    var a := Run(major, IsDigit);
    a > 0 && a < |major| && major[a] == '.' && MinorMatch(major[a + 1..])
  }

  predicate MinorMatch(minor: string) {
    var b := Run(minor, IsDigit);
    b > 0 && b < |minor| && minor[b] == '.' && Digits(minor[b + 1..])
  }

  lemma {:induction false} MinorFits(b: string, c: string)
    requires Digits(b) && Digits(c)
    ensures MinorMatch(b + "." + c)
  {
    var minor := b + "." + c;
    assert minor == b + ("." + c);
    RunIs(minor, b, "." + c, IsDigit);
    assert minor[|b| + 1..] == c && minor[|b|] == '.';
  }

  lemma {:induction false} VersionFits(a: string, minor: string)
    requires Digits(a) && MinorMatch(minor)
    ensures VersionMatch(a + "." + minor)
  {
    hide MinorMatch;
    var major := a + "." + minor;
    assert major == a + ("." + minor);
    RunIs(major, a, "." + minor, IsDigit);
    assert major[|a| + 1..] == minor && major[|a|] == '.';
  }

  lemma {:induction false} ReleaseParts(a: string, b: string, c: string)
    ensures StartsWith(ReleaseText(a, b, c), "releases/v") && ReleaseText(a, b, c)[10..] == a + "." + (b + "." + c)
  {
    var prefix, dot, major := "releases/v", ".", a + "." + (b + "." + c);
    assert prefix + a + dot + b + dot + c == prefix + major;
    assert (prefix + major)[..10] == prefix && (prefix + major)[10..] == major;
  }

  lemma {:induction false} ReleaseMatches(a: string, b: string, c: string)
    requires Digits(a) && Digits(b) && Digits(c)
    ensures ReleaseMatch(ReleaseText(a, b, c))
  {
    MinorFits(b, c);
    VersionFits(a, b + "." + c);
    hide VersionMatch, MinorMatch, Digits;
    ReleaseParts(a, b, c);
  }

  lemma {:induction false} ReleaseFound(branch: string)
    requires ReleaseMatch(branch)
    ensures Release(branch)
  {
    var major := branch[10..];
    var a := Run(major, IsDigit);
    var minor := major[a + 1..];
    var b := Run(minor, IsDigit);
    var x, y, z := major[..a], minor[..b], minor[b + 1..];
    assert major == x + "." + minor && minor == y + "." + z;
    assert x + "." + (y + "." + z) == x + "." + y + "." + z;
    assert branch == ReleaseText(x, y, z);
    assert Digits(x) && Digits(y) && Digits(z);
  }

  lemma {:induction false} ReleaseFits(branch: string)
    ensures ReleaseMatch(branch) <==> Release(branch)
  {
    hide ReleaseMatch, ReleaseText;
    if ReleaseMatch(branch) { ReleaseFound(branch); }
    if Release(branch) {
      var a, b, c :| Digits(a) && Digits(b) && Digits(c) && branch == ReleaseText(a, b, c);
      ReleaseMatches(a, b, c);
    }
  }

  // ---- slugs

  function SplitDashes(s: string): seq<string> { SplitOn(s, '-') }

  predicate Word(s: string) { s != "" && WordTail(s) }

  predicate WordTail(s: string) { forall i :: 0 <= i < |s| ==> Lower(s[i]) || IsDigit(s[i]) }

  predicate CanonicalSlug(slug: string) {
    slug != "" && var words := SplitDashes(slug); forall i :: 0 <= i < |words| ==> Word(words[i])
  }

  predicate SlugTail(s: string) {
    && (forall i :: 0 <= i < |s| ==> Lower(s[i]) || IsDigit(s[i]) || s[i] == '-')
    && (s == "" || s[|s| - 1] != '-')
    && (forall i :: 0 < i < |s| && s[i] == '-' ==> s[i - 1] != '-')
  }

  lemma {:induction false} SlugWords(s: string)
    ensures var words := SplitDashes(s);
      SlugTail(s) <==> WordTail(words[0]) && forall i :: 1 <= i < |words| ==> Word(words[i])
    decreases |s|
  {
    if s != "" {
      var t, more := s[1..], SplitDashes(s[1..]);
      SlugWords(t);
      var words := SplitDashes(s);
      if s[0] == '-' {
        assert words[0] == "" && words[1..] == more;
        assert forall i :: 1 <= i < |words| ==> words[i] == more[i - 1];
        assert more[0] == "" <==> t == "" || t[0] == '-';
      } else {
        assert words[0] == [s[0]] + more[0] && forall i :: 1 <= i < |words| ==> words[i] == more[i];
        assert WordTail(words[0]) <==>
          (Lower(s[0]) || IsDigit(s[0])) && WordTail(more[0]) by { WordStep(s[0], more[0]); }
      }
    }
  }

  lemma {:induction false} WordStep(c: char, s: string)
    ensures WordTail([c] + s) <==> (Lower(c) || IsDigit(c)) && WordTail(s)
  {
    assert forall i :: 0 <= i < |s| ==> ([c] + s)[i + 1] == s[i];
    assert ([c] + s)[0] == c;
  }

  /** Splitting at the dashes accepts exactly the slugs. */
  lemma {:induction false} SlugFits(s: string)
    ensures CanonicalSlug(s) <==> Slug(s)
  {
    SlugWords(s);
  }

  // ---- keys

  /** A branch names its project, number and the rest in one way only. */
  lemma {:induction false} KeyedParts(rest: string, project: string, number: string, tail: string)
    requires Keyed(rest, project, number, tail)
    ensures StartsUpper(rest)
    ensures var u := Run(rest, UpperOrDigit);
      && project == rest[..u] && u < |rest| && rest[u] == '-'
      && var d := Run(rest[u + 1..], IsDigit); number == rest[u + 1..][..d] && tail == rest[u + 1..][d..]
  {
    assert rest == project + ("-" + number + tail);
    assert ("-" + number + tail)[0] == '-';
    RunIs(rest, project, "-" + number + tail, UpperOrDigit);
    assert rest[0] == project[0];
    assert rest[|project| + 1..] == number + tail;
    RunIs(number + tail, number, tail, IsDigit);
  }

  lemma {:induction false} LowerKeyedParts(rest: string, project: string, number: string, tail: string)
    requires LowerKeyed(rest, project, number, tail)
    ensures rest != "" && Lower(rest[0])
    ensures var u := Run(rest, LowerOrDigit);
      && project == rest[..u] && u < |rest| && rest[u] == '-'
      && var d := Run(rest[u + 1..], IsDigit); number == rest[u + 1..][..d] && tail == rest[u + 1..][d..]
  {
    assert rest == project + ("-" + number + tail);
    assert ("-" + number + tail)[0] == '-';
    RunIs(rest, project, "-" + number + tail, LowerOrDigit);
    assert rest[0] == project[0];
    assert rest[|project| + 1..] == number + tail;
    RunIs(number + tail, number, tail, IsDigit);
  }

  /** Type, project, number and slug of a branch are unique. */
  lemma {:induction false} KeyedBranchUnique(branch: string, k: string, p: string, n: string, s: string,
                                             k2: string, p2: string, n2: string, s2: string)
    requires KeyedBranch(branch, k, p, n, s) && KeyedBranch(branch, k2, p2, n2, s2)
    ensures k == k2 && p == p2 && n == n2 && s == s2
  {
    hide Slug, Project, Number;
    TypedUnique(branch, k, p + "-" + n + "-" + s, k2, p2 + "-" + n2 + "-" + s2);
    SluggedKey(p, n, s);
    SluggedKey(p2, n2, s2);
    KeyedParts(p + "-" + n + "-" + s, p, n, "-" + s);
    KeyedParts(p + "-" + n + "-" + s, p2, n2, "-" + s2);
    assert ("-" + s)[1..] == s && ("-" + s2)[1..] == s2;
  }

  lemma {:induction false} SluggedKey(p: string, n: string, s: string)
    requires Project(p) && Number(n)
    ensures Keyed(p + "-" + n + "-" + s, p, n, "-" + s)
  {
    assert p + "-" + n + "-" + s == p + "-" + n + ("-" + s);
  }

  lemma {:induction false} TypedUnique(branch: string, k: string, r: string, k2: string, r2: string)
    requires Typed(branch, k, r) && Typed(branch, k2, r2)
    ensures k == k2 && r == r2
  {
    assert branch[|k|] == '/' && branch[|k2|] == '/';
    forall i | 0 <= i < |k| ensures branch[i] != '/' { assert k[i] == branch[i]; }
    forall i | 0 <= i < |k2| ensures branch[i] != '/' { assert k2[i] == branch[i]; }
    assert k == branch[..|k|] && k2 == branch[..|k2|];
    assert r == branch[|k| + 1..] && r2 == branch[|k2| + 1..];
  }

  method LooksLikeLowercaseKey(text: string) returns (looks: bool)
    ensures looks <==> LowercaseKey(text)
  {
    hide LowercaseKey, Run;
    if text == "" || !Lower(text[0]) {
      NoLowercaseKey(text);
      return false;
    }
    var length := 0;
    while length < |text| && LowerOrDigit(text[length])
      invariant 0 <= length <= |text|
      invariant forall i :: 0 <= i < length ==> LowerOrDigit(text[i])
    {
      length := length + 1;
    }
    if length == |text| || text[length] != '-' {
      NoLowercaseKey(text);
      return false;
    }
    var number := text[length + 1..];
    var digits := 0;
    while digits < |number| && IsDigit(number[digits])
      invariant 0 <= digits <= |number|
      invariant forall i :: 0 <= i < digits ==> IsDigit(number[i])
    {
      digits := digits + 1;
    }
    if digits == 0 || number[0] == '0' {
      NoLowercaseKey(text);
      return false;
    }
    looks := digits == |number| || number[digits] == '-';
    if looks {
      LowercaseKeyAt(text, length, digits);
    } else {
      NoLowercaseKey(text);
    }
  }

  lemma {:induction false} LowercaseKeyAt(text: string, length: nat, digits: nat)
    requires length < |text| && text[length] == '-' && digits <= |text| - length - 1
    requires LowerProject(text[..length]) && Number(text[length + 1..][..digits])
    requires var tail := text[length + 1..][digits..]; tail == "" || tail[0] == '-'
    ensures LowercaseKey(text)
  {
    hide LowerProject, Number;
    var number := text[length + 1..];
    assert text == text[..length] + "-" + number[..digits] + number[digits..];
    assert LowerKeyed(text, text[..length], number[..digits], number[digits..]);
  }

  /** The scanner's reasons to give up are reasons that no split exists. */
  lemma {:induction false} NoLowercaseKey(text: string)
    requires var u := Run(text, LowerOrDigit);
      || text == "" || !Lower(text[0]) || u == |text| || text[u] != '-'
      || var number := text[u + 1..];
         var d := Run(number, IsDigit);
         d == 0 || number[0] == '0' || (d < |number| && number[d] != '-')
    ensures !LowercaseKey(text)
  {
    hide Run;
    forall p, n, tail ensures !LowerKeyed(text, p, n, tail) {
      if LowerKeyed(text, p, n, tail) { LowerKeyedParts(text, p, n, tail); }
    }
  }

  lemma {:induction false} NotKeyed(rest: string)
    requires var u := Run(rest, UpperOrDigit);
      || u == |rest| || rest[u] != '-'
      || var number := rest[u + 1..]; Run(number, IsDigit) == 0 || number[0] == '0'
    ensures forall p, n, tail :: !Keyed(rest, p, n, tail)
  {
    hide Run;
    forall p, n, tail ensures !Keyed(rest, p, n, tail) {
      if Keyed(rest, p, n, tail) { KeyedParts(rest, p, n, tail); }
    }
  }

  /** The refusal for the part of a branch after a known type. */
  method RestRefusal(branch: string, kind: string, rest: string, project: string) returns (r: Option<Code>)
    requires Typed(branch, kind, rest) && !Release(branch)
    ensures r.Some? ==> RestMeans(r.value, branch, kind, rest, project)
    ensures r.None? ==> exists number, slug :: KeyedBranch(branch, kind, project, number, slug)
  {
    hide Release, LowercaseKey, Keyed, Run, KeyedBranch;
    if !StartsUpper(rest) {
      var looks := LooksLikeLowercaseKey(rest);
      return Some(if looks then KeyNotCanonical else if kind == "releases" then ReleaseInvalid else KeyMissing);
    }
    var projectLength := 0;
    while projectLength < |rest| && UpperOrDigit(rest[projectLength])
      invariant 0 <= projectLength <= |rest|
      invariant forall i :: 0 <= i < projectLength ==> UpperOrDigit(rest[i])
    {
      projectLength := projectLength + 1;
    }
    if projectLength == |rest| || rest[projectLength] != '-' {
      NotKeyed(rest);
      return Some(KeyNotCanonical);
    }
    var number := rest[projectLength + 1..];
    var numberLength := 0;
    while numberLength < |number| && IsDigit(number[numberLength])
      invariant 0 <= numberLength <= |number|
      invariant forall i :: 0 <= i < numberLength ==> IsDigit(number[i])
    {
      numberLength := numberLength + 1;
    }
    if numberLength == 0 || number[0] == '0' {
      NotKeyed(rest);
      return Some(KeyNotCanonical);
    }
    var p, n, remainder := rest[..projectLength], number[..numberLength], number[numberLength..];
    r := KeyRefusal(branch, kind, rest, project, p, n, remainder);
  }

  method KeyRefusal(branch: string, kind: string, rest: string, project: string, p: string, n: string,
        remainder: string)
    returns (r: Option<Code>)
    requires Typed(branch, kind, rest) && Keyed(rest, p, n, remainder)
    ensures r.Some? ==> RestMeans(r.value, branch, kind, rest, project)
    ensures r.None? ==> exists number, slug :: KeyedBranch(branch, kind, project, number, slug)
  {
    KeyedParts(rest, p, n, remainder);
    if p != project { return Some(ProjectMismatch); }
    if remainder == "" { return Some(SlugInvalid); }
    if remainder[0] != '-' {
      OneKey(rest, p, n, remainder);
      return Some(KeyNotCanonical);
    }
    SlugFits(remainder[1..]);
    if !CanonicalSlug(remainder[1..]) { return Some(SlugInvalid); }
    assert p + "-" + n + remainder == p + "-" + n + "-" + remainder[1..];
    assert KeyedBranch(branch, kind, project, n, remainder[1..]);
    r := None;
  }

  lemma {:induction false} OneKey(rest: string, p: string, n: string, tail: string)
    requires Keyed(rest, p, n, tail)
    ensures forall p2, n2, tail2 :: Keyed(rest, p2, n2, tail2) ==> p2 == p && n2 == n && tail2 == tail
  {
    hide Keyed, Run;
    KeyedParts(rest, p, n, tail);
    forall p2, n2, tail2 | Keyed(rest, p2, n2, tail2) ensures p2 == p && n2 == n && tail2 == tail {
      KeyedParts(rest, p2, n2, tail2);
    }
  }

  /** Why a branch is not accepted, or nothing when it is. */
  method BranchRefusal(branch: string, project: string, types: seq<string>) returns (r: Option<Code>)
    ensures Explains(r, branch, project, types)
  {
    if branch == "" { return Some(ShapeInvalid); }
    ReleaseFits(branch);
    var slash := Run(branch, NotSlash);
    if ReleaseMatch(branch) {
      if "releases" in types { return None; }
      ReleaseTyped(branch);
      return Some(TypeUnknown);
    }
    if slash == |branch| {
      assert branch[..slash] == branch;
      return Some(ShapeInvalid);
    }
    var kind, rest := branch[..slash], branch[slash + 1..];
    assert Typed(branch, kind, rest);
    if kind !in types { return Some(TypeUnknown); }
    r := RestRefusal(branch, kind, rest, project);
    if r.Some? { assert r.value != ShapeInvalid && r.value != TypeUnknown; }
  }

  lemma {:induction false} ReleaseTyped(branch: string)
    requires Release(branch)
    ensures exists rest :: Typed(branch, "releases", rest) && rest != "" && rest[0] == 'v' && '-' !in rest
  {
    var a, b, c :| Digits(a) && Digits(b) && Digits(c) && branch == ReleaseText(a, b, c);
    var rest := "v" + a + "." + b + "." + c;
    assert branch == "releases" + "/" + rest;
    assert Typed(branch, "releases", rest);
  }

  // ---------------------------------------------------------------- one answer only

  lemma {:induction false} RestUnique(a: Code, b: Code, branch: string, kind: string, rest: string, project: string)
    requires RestMeans(a, branch, kind, rest, project) && RestMeans(b, branch, kind, rest, project)
    ensures a == b
  {
    hide Keyed, Release, LowercaseKey, Slug, StartsUpper;
    forall p, n, tail | Keyed(rest, p, n, tail)
      ensures StartsUpper(rest) && forall p2, n2, tail2 :: Keyed(rest, p2, n2, tail2) ==>
        p2 == p && n2 == n && tail2 == tail {
      KeyedParts(rest, p, n, tail);
      OneKey(rest, p, n, tail);
    }
  }

  /** A canonical branch is refused for no reason. */
  lemma {:induction false} CanonicalRest(code: Code, branch: string, kind: string, rest: string, project: string,
        types: seq<string>)
    requires Canonical(branch, project, types) && Typed(branch, kind, rest)
    ensures kind in types && !RestMeans(code, branch, kind, rest, project)
  {
    hide Release, Slug, Project, Number, Keyed;
    if "releases" in types && Release(branch) {
      ReleaseTyped(branch);
      var v :| Typed(branch, "releases", v) && v != "" && v[0] == 'v' && '-' !in v;
      TypedUnique(branch, kind, rest, "releases", v);
      forall p, n, tail ensures !Keyed(rest, p, n, tail) {
        if Keyed(rest, p, n, tail) { KeyedParts(rest, p, n, tail); }
      }
      forall p, n, tail ensures !LowerKeyed(rest, p, n, tail) {
        if LowerKeyed(rest, p, n, tail) { LowerKeyedParts(rest, p, n, tail); }
      }
    } else {
      var k, n, s :| k in types && KeyedBranch(branch, k, project, n, s);
      TypedUnique(branch, kind, rest, k, project + "-" + n + "-" + s);
      SluggedKey(project, n, s);
      KeyedParts(rest, project, n, "-" + s);
      OneKey(rest, project, n, "-" + s);
      assert ("-" + s)[1..] == s;
      forall p, n, tail ensures !LowerKeyed(rest, p, n, tail) {
        if LowerKeyed(rest, p, n, tail) { LowerKeyedParts(rest, p, n, tail); }
      }
    }
  }

  /** The meaning of the answers leaves room for one answer only, so the scanner's answer is it. */
  lemma {:induction false} ExplainsUnique(a: Option<Code>, b: Option<Code>, branch: string, project: string,
        types: seq<string>)
    requires Explains(a, branch, project, types) && Explains(b, branch, project, types)
    ensures a == b
  {
    if a.Some? && b.Some? {
      CodesUnique(a.value, b.value, branch, project, types);
    } else if a.Some? {
      CanonicalRefused(a.value, branch, project, types);
    } else if b.Some? {
      CanonicalRefused(b.value, branch, project, types);
    }
  }

  lemma {:induction false} CanonicalRefused(code: Code, branch: string, project: string, types: seq<string>)
    requires Canonical(branch, project, types)
    ensures !Explains(Some(code), branch, project, types)
  {
    forall kind, rest | Typed(branch, kind, rest)
      ensures kind in types && !RestMeans(code, branch, kind, rest, project) {
      CanonicalRest(code, branch, kind, rest, project, types);
    }
  }

  lemma {:induction false} CodesUnique(a: Code, b: Code, branch: string, project: string, types: seq<string>)
    requires Explains(Some(a), branch, project, types) && Explains(Some(b), branch, project, types)
    ensures a == b
  {
    hide RestMeans;
    if kind, rest :| Typed(branch, kind, rest) {
      assert branch[|kind|] == '/';
      forall k, r | Typed(branch, k, r) ensures k == kind && r == rest { TypedUnique(branch, k, r, kind, rest); }
      if kind in types { RestUnique(a, b, branch, kind, rest, project); }
    }
  }
}
