/**
 * The package-name validator that guards every install command: it cuts the
 * package text at the first version separator it finds and screens only that
 * base name.
 */
module PackageName {

  import opened Wrappers

  /** Version separators, in the order the validator tries them. */
  const Separators: seq<string> := ["==", ">=", "<=", ">", "<", "~=", "!="]

  /** Characters refused as shell metacharacters. */
  const ShellMeta: set<char> := {';', '|', '&', '$', '`'}

  /** Prefixes refused as direct URLs. */
  const UrlPrefixes: seq<string> := ["http://", "https://", "git+", "svn+"]

  const EmptyMessage := "Package name cannot be empty"
  const UrlMessage := "Direct URLs not supported. Use package names only."

  function BadCharsMessage(base: string): string { "Invalid characters in package: " + base }
  function BadFormatMessage(base: string): string { "Invalid package name format: " + base }

  // ---------------------------------------------------------------------
  // Substring search (`sep in pkg`, `pkg.split(sep)[0]`)
  // ---------------------------------------------------------------------

  predicate OccursAt(s: string, sep: string, i: nat) {
    i + |sep| <= |s| && s[i..i + |sep|] == sep
  }

  ghost predicate Contains(s: string, sep: string) {
    exists i: nat :: OccursAt(s, sep, i)
  }

  /** The first occurrence of `sep` in `s` at or after position `i`. */
  function FindFrom(s: string, sep: string, i: nat): (r: Option<nat>)
    requires sep != []
    decreases |s| - i
    ensures r.Some? ==> i <= r.value && OccursAt(s, sep, r.value)
    ensures r.Some? ==> forall j: nat :: i <= j < r.value ==> !OccursAt(s, sep, j)
    ensures r.None? ==> forall j: nat :: i <= j ==> !OccursAt(s, sep, j)
  {
    if i + |sep| > |s| then None
    else if s[i..i + |sep|] == sep then Some(i)
    else FindFrom(s, sep, i + 1)
  }

  /**
   * Scanning the separator list from position `k`, `Separators[k']` is the
   * first one that occurs in `pkg`.
   */
  ghost predicate ChosenFrom(pkg: string, k: nat, k': nat) {
    k <= k' < |Separators| && Contains(pkg, Separators[k']) &&
    forall m | k <= m < k' :: !Contains(pkg, Separators[m])
  }

  /** `n` is the position of the first occurrence of `sep` in `pkg`. */
  ghost predicate FirstOccurrence(pkg: string, sep: string, n: nat) {
    OccursAt(pkg, sep, n) && forall j: nat :: j < n ==> !OccursAt(pkg, sep, j)
  }

  ghost predicate NoSeparator(pkg: string) {
    forall k | 0 <= k < |Separators| :: !Contains(pkg, Separators[k])
  }

  /** The separator scan, starting at position `k` of the separator list. */
  function BaseFrom(pkg: string, k: nat): (r: string)
    requires k <= |Separators|
    decreases |Separators| - k
    ensures r <= pkg
    ensures (forall k' | k <= k' < |Separators| :: !Contains(pkg, Separators[k'])) ==> r == pkg
    ensures forall k': nat :: ChosenFrom(pkg, k, k') ==> FirstOccurrence(pkg, Separators[k'], |r|)
  {
    if k == |Separators| then pkg
    else match FindFrom(pkg, Separators[k], 0)
      case Some(i) => pkg[..i]
      case None => BaseFrom(pkg, k + 1)
  }

  /**
   * The base name: the text before the first occurrence of the first
   * separator (in list order) that occurs in `pkg`, or all of `pkg`.
   */
  function BaseName(pkg: string): (r: string)
    ensures r <= pkg
    ensures NoSeparator(pkg) ==> r == pkg
    ensures forall k: nat :: ChosenFrom(pkg, 0, k) ==> FirstOccurrence(pkg, Separators[k], |r|)
  {
    BaseFrom(pkg, 0)
  }

  // ---------------------------------------------------------------------
  // The four checks
  // ---------------------------------------------------------------------

  predicate IsAsciiAlnum(c: char) {
    'a' <= c <= 'z' || 'A' <= c <= 'Z' || '0' <= c <= '9'
  }

  predicate IsNameChar(c: char) {
    IsAsciiAlnum(c) || c == '.' || c == '_' || c == '-'
  }

  /** `s` is entirely `[a-zA-Z0-9][a-zA-Z0-9._-]*[a-zA-Z0-9]`. */
  predicate IsCoreName(s: string) {
    |s| >= 2 && IsAsciiAlnum(s[0]) && IsAsciiAlnum(s[|s| - 1]) &&
    forall i | 1 <= i < |s| - 1 :: IsNameChar(s[i])
  }

  /**
   * `re.match` of `^[a-zA-Z0-9][a-zA-Z0-9._-]*[a-zA-Z0-9]$`: Python's `$`
   * also matches just before a newline that ends the string.
   */
  predicate MatchesNamePattern(s: string) {
    IsCoreName(s) || (|s| > 0 && s[|s| - 1] == '\n' && IsCoreName(s[..|s| - 1]))
  }

  predicate HasShellMeta(s: string) {
    exists i | 0 <= i < |s| :: s[i] in ShellMeta
  }

  predicate StartsWith(s: string, prefix: string) {
    |prefix| <= |s| && s[..|prefix|] == prefix
  }

  predicate IsUrlLike(s: string) {
    exists k | 0 <= k < |UrlPrefixes| :: StartsWith(s, UrlPrefixes[k])
  }

  /** Every character of a matching name is a name character, except a final newline. */
  lemma PatternCharAt(s: string, i: nat)
    requires MatchesNamePattern(s) && i < |s|
    ensures IsNameChar(s[i]) || (i == |s| - 1 && s[i] == '\n')
  {
    if !IsCoreName(s) && i < |s| - 1 {
      var t := s[..|s| - 1];
      assert t[i] == s[i];
    }
  }

  /** A name matching the pattern holds no metacharacter and no URL prefix. */
  lemma PatternExcludesMetaAndUrls(s: string)
    ensures MatchesNamePattern(s) ==> !HasShellMeta(s) && !IsUrlLike(s)
  {
    if !MatchesNamePattern(s) {
      return;
    }
    if HasShellMeta(s) {
      var i :| 0 <= i < |s| && s[i] in ShellMeta;
      PatternCharAt(s, i);
    }
    if IsUrlLike(s) {
      var k :| 0 <= k < |UrlPrefixes| && StartsWith(s, UrlPrefixes[k]);
      PatternCharAt(s, if k == 0 then 4 else if k == 1 then 5 else 3);
      assert false;
    }
  }

  /**
   * `validate_package_name`: (valid, message). The checks run in the order
   * empty, metacharacters, URL prefix, name pattern; the first that fails
   * gives the message.
   */
  function ValidatePackageName(pkg: string): (r: (bool, string))
    ensures r.0 <==> pkg != [] && MatchesNamePattern(BaseName(pkg))
    ensures r.0 <==> r.1 == ""
  {
    if pkg == [] then (false, EmptyMessage)
    else
      var base := BaseName(pkg);
      PatternExcludesMetaAndUrls(base);
      if HasShellMeta(base) then (false, BadCharsMessage(base))
      else if IsUrlLike(base) then (false, UrlMessage)
      else if !MatchesNamePattern(base) then (false, BadFormatMessage(base))
      else (true, "")
  }

  predicate IsValid(pkg: string) {
    ValidatePackageName(pkg).0
  }

  /** The entries of `pkgs` that pass the validator, in their original order. */
  function ValidOnly(pkgs: seq<string>): (r: seq<string>)
    ensures |r| <= |pkgs|
    ensures forall p :: p in r ==> p in pkgs && IsValid(p)
    ensures forall p :: p in pkgs && IsValid(p) ==> p in r
  {
    if pkgs == [] then []
    else
      var init, last := pkgs[..|pkgs| - 1], pkgs[|pkgs| - 1];
      assert pkgs == init + [last];
      ValidOnly(init) + (if IsValid(last) then [last] else [])
  }

  /** Screening one entry keeps it iff the validator accepts it. */
  lemma ValidOnlyOne(p: string)
    ensures ValidOnly([p]) == if IsValid(p) then [p] else []
  {
    assert [p][..0] == [];
  }

  /**
   * Screening two lists in a row screens each in turn: the kept entries
   * keep their order and their repeats.
   */
  lemma {:induction false} ValidOnlyAppend(a: seq<string>, b: seq<string>)
    decreases |b|
    ensures ValidOnly(a + b) == ValidOnly(a) + ValidOnly(b)
  {
    if b == [] {
      assert a + b == a;
    } else {
      var init, last := b[..|b| - 1], b[|b| - 1];
      assert (a + b)[..|a + b| - 1] == a + init;
      assert (a + b)[|a + b| - 1] == last;
      ValidOnlyAppend(a, init);
    }
  }

  // ---------------------------------------------------------------------
  // Properties of the validator
  // ---------------------------------------------------------------------

  /** On rejection, the message comes from the first check that fails. */
  lemma RejectionOrder(pkg: string)
    ensures pkg == [] ==> ValidatePackageName(pkg) == (false, EmptyMessage)
    ensures pkg != [] && HasShellMeta(BaseName(pkg)) ==>
      ValidatePackageName(pkg) == (false, BadCharsMessage(BaseName(pkg)))
    ensures pkg != [] && !HasShellMeta(BaseName(pkg)) && IsUrlLike(BaseName(pkg)) ==>
      ValidatePackageName(pkg) == (false, UrlMessage)
    ensures pkg != [] && !HasShellMeta(BaseName(pkg)) && !IsUrlLike(BaseName(pkg)) &&
            !MatchesNamePattern(BaseName(pkg)) ==>
      ValidatePackageName(pkg) == (false, BadFormatMessage(BaseName(pkg)))
  {
  }

  /**
   * An accepted package has a base name of at least two characters that
   * starts with a letter or digit and holds no metacharacter, no ':' and
   * no '+' (only a final newline may fall outside the name characters).
   */
  lemma AcceptedBaseShape(pkg: string)
    requires ValidatePackageName(pkg).0
    ensures var b := BaseName(pkg);
      |b| >= 2 && IsAsciiAlnum(b[0]) &&
      forall i | 0 <= i < |b| ::
        b[i] !in ShellMeta && b[i] != ':' && b[i] != '+' &&
        (IsNameChar(b[i]) || (i == |b| - 1 && b[i] == '\n'))
  {
    var b := BaseName(pkg);
    forall i | 0 <= i < |b|
      ensures b[i] !in ShellMeta && b[i] != ':' && b[i] != '+' &&
              (IsNameChar(b[i]) || (i == |b| - 1 && b[i] == '\n'))
    {
      PatternCharAt(b, i);
    }
    if !IsCoreName(b) {
      assert b[..|b| - 1][0] == b[0];
    }
  }

  /** Every separator starts with one of these characters. */
  const SeparatorStarts: set<char> := {'=', '>', '<', '~', '!'}

  lemma OccurrenceStart(s: string, k: nat, j: nat)
    requires k < |Separators| && OccursAt(s, Separators[k], j)
    ensures s[j] in SeparatorStarts
  {
    assert s[j] == s[j..j + |Separators[k]|][0];
  }

  /** Positions below `n` hold only name characters, so no separator starts there. */
  lemma NoSeparatorBefore(s: string, n: nat, k: nat)
    requires n <= |s| && k < |Separators|
    requires forall j | 0 <= j < n :: IsNameChar(s[j])
    ensures forall j: nat :: j < n ==> !OccursAt(s, Separators[k], j)
  {
    forall j: nat | j < n && OccursAt(s, Separators[k], j)
      ensures false
    {
      OccurrenceStart(s, k, j);
    }
  }

  /** Text without any separator character is its own base name. */
  lemma NoSeparatorCharacters(s: string)
    requires forall j | 0 <= j < |s| :: s[j] !in SeparatorStarts
    ensures NoSeparator(s) && BaseName(s) == s
  {
    forall k | 0 <= k < |Separators| ensures !Contains(s, Separators[k]) {
      forall j: nat | OccursAt(s, Separators[k], j) ensures false {
        OccurrenceStart(s, k, j);
      }
    }
  }

  /**
   * Text after the chosen separator is never screened: a well-formed name
   * followed by `==` and ANY text is accepted, metacharacters included.
   */
  lemma VersionSuffixUnscreened(name: string, suffix: string)
    requires IsCoreName(name)
    ensures BaseName(name + "==" + suffix) == name
    ensures ValidatePackageName(name + "==" + suffix) == (true, "")
  {
    var s := name + "==" + suffix;
    assert OccursAt(s, Separators[0], |name|) by {
      assert s[|name|..|name| + 2] == "==";
    }
    assert ChosenFrom(s, 0, 0);
    forall j | 0 <= j < |name| ensures IsNameChar(s[j]) {
      assert s[j] == name[j];
    }
    NoSeparatorBefore(s, |name|, 0);
    var b := BaseName(s);
    assert |b| == |name|;
    assert b == s[..|name|] == name;
  }

  /** Python's `$` lets a well-formed name with one trailing newline through. */
  lemma TrailingNewlineAccepted(name: string)
    requires IsCoreName(name)
    ensures ValidatePackageName(name + "\n") == (true, "")
  {
    var s := name + "\n";
    forall j | 0 <= j < |name| ensures IsNameChar(s[j]) {
      assert s[j] == name[j];
    }
    NoSeparatorCharacters(s);
    assert s[..|s| - 1] == name;
  }

  /** A shell command smuggled in after a package name is rejected for its metacharacter. */
  lemma InjectionRejected()
    ensures ValidatePackageName("pkg;rm -rf /") == (false, BadCharsMessage("pkg;rm -rf /"))
  {
    var s := "pkg;rm -rf /";
    assert s[3] in ShellMeta;
    assert HasShellMeta(s);
    NoSeparatorCharacters(s);
  }
}
