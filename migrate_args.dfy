/** The command line of `migrate_all`, filtered before it is forwarded to
    `migrations.migrate`: the first `--exclude` option is removed, together
    with the token after it when that token is a value and not an option. */
module MigrateArgs {

  datatype Option<T> = None | Some(value: T)

  /** The option `migrate_all` adds on top of those of `migrations.migrate`. */
  const ExcludeFlag: string := "--exclude"

  /** PHP's `strpos($token, '-') === 0`: the token starts with a dash. An empty
      token has no dash at all (`strpos` gives `false`). */
  predicate StartsWithDash(token: string) {
    |token| > 0 && token[0] == '-'
  }

  /** PHP's strict `array_search($x, $s, true)` on a list: the index of the
      first element equal to `x`, or `None` where PHP gives `false`. */
  function FirstIndex(s: seq<string>, x: string): (r: Option<nat>)
    ensures r.None? <==> x !in s
    ensures r.Some? ==> r.value < |s| && s[r.value] == x && x !in s[..r.value]
  {
    if s == [] then None
    else if s[0] == x then Some(0)
    else match FirstIndex(s[1..], x)
      case None => None
      case Some(i) =>
        assert s[..i + 1] == [s[0]] + s[1..][..i];
        Some(i + 1)
  }

  /** The tokens that follow `--exclude`, without the option's value: the
      first of them goes when it exists and does not start with a dash. */
  function DropValue(rest: seq<string>): seq<string> {
    if |rest| > 0 && !StartsWithDash(rest[0]) then rest[1..] else rest
  }

  /** `_extractMigrateArgs`: unset the first `--exclude`, then unset the token
      at the next position if it is set and is not an option. */
  function ExtractMigrateArgs(argv: seq<string>): (r: seq<string>)
    ensures ExcludeFlag !in argv ==> r == argv
    ensures ExcludeFlag in argv ==> |argv| - 2 <= |r| < |argv|
  {
    match FirstIndex(argv, ExcludeFlag)
    case None => argv
    case Some(pos) =>
      if pos + 1 < |argv| && !StartsWithDash(argv[pos + 1]) then argv[..pos] + argv[pos + 2..]
      else argv[..pos] + argv[pos + 1..]
  }

  /** `a` is obtained from `b` by deleting elements: every element of `a`
      occurs in `b`, in the same relative order. */
  predicate IsSubsequence(a: seq<string>, b: seq<string>)
    decreases |b|
  {
    a == [] || (b != [] && ((a[0] == b[0] && IsSubsequence(a[1..], b[1..])) || IsSubsequence(a, b[1..])))
  }

  lemma {:induction false} SubsequenceOfSuffix(s: seq<string>, front: seq<string>)
    ensures IsSubsequence(s, front + s)
    decreases |front| + |s|
  {
    if front != [] {
      assert (front + s)[1..] == front[1..] + s;
      SubsequenceOfSuffix(s, front[1..]);
    } else if s != [] {
      assert front + s == s;
      SubsequenceOfSuffix(s[1..], []);
      assert [] + s[1..] == s[1..];
    }
  }

  lemma {:induction false} SubsequenceUnderPrefix(p: seq<string>, a: seq<string>, b: seq<string>)
    requires IsSubsequence(a, b)
    ensures IsSubsequence(p + a, p + b)
    decreases |p|
  {
    if p != [] {
      SubsequenceUnderPrefix(p[1..], a, b);
      assert (p + a)[1..] == p[1..] + a;
      assert (p + b)[1..] == p[1..] + b;
    } else {
      assert p + a == a && p + b == b;
    }
  }

  /** The first `--exclude` sits at the end of the excluder-free prefix `pre`,
      so the filter keeps `pre` and drops the option's value from what follows. */
  lemma ExtractFirstExclude(pre: seq<string>, post: seq<string>)
    requires ExcludeFlag !in pre
    ensures ExtractMigrateArgs(pre + [ExcludeFlag] + post) == pre + DropValue(post)
  {
    var argv := pre + [ExcludeFlag] + post;
    assert argv[|pre|] == ExcludeFlag;
    assert argv[..|pre|] == pre;
    var pos := FirstIndex(argv, ExcludeFlag).value;
    assert pos == |pre|;
    assert argv[..pos] == pre;
    assert argv[pos + 1..] == post;
    if |post| > 0 {
      assert argv[pos + 1] == post[0];
      assert argv[pos + 2..] == post[1..];
    }
  }

  /** Every `--exclude` other than the first one reaches `migrations.migrate`:
      the value that may be dropped never is one, since it starts with a dash. */
  lemma ExtractRemovesOneExclude(argv: seq<string>)
    ensures multiset(ExtractMigrateArgs(argv))[ExcludeFlag] ==
      if ExcludeFlag in argv then multiset(argv)[ExcludeFlag] - 1 else multiset(argv)[ExcludeFlag]
  {
    if ExcludeFlag in argv {
      var pos := FirstIndex(argv, ExcludeFlag).value;
      var pre, post := argv[..pos], argv[pos + 1..];
      assert argv == pre + [ExcludeFlag] + post;
      ExtractFirstExclude(pre, post);
      if |post| > 0 && !StartsWithDash(post[0]) {
        assert ExcludeFlag[0] == '-';
        assert post == [post[0]] + post[1..];
        assert multiset(post)[ExcludeFlag] == multiset(post[1..])[ExcludeFlag];
      }
    }
  }

  lemma DropValueIsSubsequence(post: seq<string>)
    ensures IsSubsequence(DropValue(post), [ExcludeFlag] + post)
  {
    if |post| > 0 && !StartsWithDash(post[0]) {
      assert [ExcludeFlag] + post == [ExcludeFlag, post[0]] + post[1..];
      SubsequenceOfSuffix(post[1..], [ExcludeFlag, post[0]]);
    } else {
      SubsequenceOfSuffix(post, [ExcludeFlag]);
    }
  }

  /** Dropping `--exclude` and its value keeps the order of the other tokens. */
  lemma DropExcludeIsSubsequence(pre: seq<string>, post: seq<string>)
    ensures IsSubsequence(pre + DropValue(post), pre + [ExcludeFlag] + post)
  {
    DropValueIsSubsequence(post);
    SubsequenceUnderPrefix(pre, DropValue(post), [ExcludeFlag] + post);
    assert pre + [ExcludeFlag] + post == pre + ([ExcludeFlag] + post);
  }

  /** Whatever is forwarded keeps the relative order of the command line. */
  lemma ExtractKeepsOrder(argv: seq<string>)
    ensures IsSubsequence(ExtractMigrateArgs(argv), argv)
  {
    if ExcludeFlag in argv {
      var pos := FirstIndex(argv, ExcludeFlag).value;
      var pre, post := argv[..pos], argv[pos + 1..];
      assert argv == pre + [ExcludeFlag] + post;
      ExtractFirstExclude(pre, post);
      DropExcludeIsSubsequence(pre, post);
    } else {
      SubsequenceOfSuffix(argv, []);
      assert [] + argv == argv;
    }
  }

  /** `--exclude foo --verbose` forwards `--verbose`. */
  lemma ExtractDropsValue()
    ensures ExtractMigrateArgs(["--exclude", "foo", "--verbose"]) == ["--verbose"]
  {
  }

  /** `--exclude --verbose` forwards `--verbose`: an option is not a value. */
  lemma ExtractKeepsOptionAfterExclude()
    ensures ExtractMigrateArgs(["--exclude", "--verbose"]) == ["--verbose"]
  {
  }

  /** `--exclude` as the last token goes alone. */
  lemma ExtractExcludeLast()
    ensures ExtractMigrateArgs(["--verbose", "--exclude"]) == ["--verbose"]
  {
  }

  /** Only the first `--exclude` and its value go; a second one is forwarded. */
  lemma ExtractSecondExcludeSurvives()
    ensures ExtractMigrateArgs(["--exclude", "a", "--exclude", "b"]) == ["--exclude", "b"]
  {
  }
}
