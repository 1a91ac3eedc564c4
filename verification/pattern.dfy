/**
 * The access-log pattern compiler (`AccessLogger.buildTemplate`): fixed `%X`
 * directives become `${Tag}` placeholders, `%{F}t`, `%{H}i` and `%{H}o`
 * become `${ReceivedAt|F}`, `${RequestHeader|h}` and `${ResponseHeader|h}`
 * (h is H lower-cased), and the resulting text is split into a template.
 */
module Pattern {
  import opened Wrappers
  import opened Text
  import opened FastTemplate

  /** The text `${name}`, which the template splitter turns into the tag `name`. */
  function Placeholder(name: string): string {
    "${" + name + "}"
  }

  lemma PlaceholderShape(name: string)
    requires '%' !in name
    ensures |Placeholder(name)| > 0 && Placeholder(name)[0] == '$'
    ensures '%' !in Placeholder(name)
  {
  }

  const TimeFamily := "ReceivedAt"
  const RequestHeaderFamily := "RequestHeader"
  const ResponseHeaderFamily := "ResponseHeader"

  /** The layout `%t` formats the receive time with (Apache's common log time format). */
  const CommonLogTimeLayout := "02/Jan/2006:15:04:05 -0700"

  /** The placeholder text a fixed directive `%c` stands for, or `None` when `%c` is not one. */
  function Directive(c: char): Option<string> {
    match c
    case 'a' => Some(Placeholder("RemoteIP"))
    case 'A' => Some(Placeholder("LocalIP"))
    case 'b' => Some(Placeholder("BytesSent|-"))
    case 'B' => Some(Placeholder("BytesSent|0"))
    case 'H' => Some(Placeholder("Proto"))
    case 'm' => Some(Placeholder("Method"))
    case 'q' => Some(Placeholder("QueryString"))
    case 'r' => Some(Placeholder("Method") + " " + Placeholder("RequestURI"))
    case 's' => Some(Placeholder("StatusCode"))
    case 't' => Some(Placeholder(TimeFamily + "|" + CommonLogTimeLayout))
    case 'U' => Some(Placeholder("URLPath"))
    case 'D' => Some(Placeholder("Latency|-"))
    case 'T' => Some(Placeholder("Latency|s"))
    case 'F' => Some(Placeholder("FirstByteTime|-"))
    case _ => None
  }

  /** Every placeholder starts with `$` and holds no `%`. */
  lemma DirectiveShape(c: char)
    requires Directive(c).Some?
    ensures |Directive(c).value| > 0 && Directive(c).value[0] == '$'
    ensures '%' !in Directive(c).value
  {
    if c in "aAbBHmq" {
      SimpleDirectiveShape(c);
    } else {
      OtherDirectiveShape(c);
    }
  }

  lemma SimpleDirectiveShape(c: char)
    requires c in "aAbBHmq"
    ensures |Directive(c).value| > 0 && Directive(c).value[0] == '$'
    ensures '%' !in Directive(c).value
  {
    match c
    case 'a' => PlaceholderShape("RemoteIP");
    case 'A' => PlaceholderShape("LocalIP");
    case 'b' => PlaceholderShape("BytesSent|-");
    case 'B' => PlaceholderShape("BytesSent|0");
    case 'H' => PlaceholderShape("Proto");
    case 'm' => PlaceholderShape("Method");
    case 'q' => PlaceholderShape("QueryString");
  }

  lemma OtherDirectiveShape(c: char)
    requires Directive(c).Some? && c !in "aAbBHmq"
    ensures |Directive(c).value| > 0 && Directive(c).value[0] == '$'
    ensures '%' !in Directive(c).value
  {
    match c
    case 'r' =>
      PlaceholderShape("Method");
      PlaceholderShape("RequestURI");
    case 's' => PlaceholderShape("StatusCode");
    case 't' =>
      assert '%' !in TimeFamily && '%' !in CommonLogTimeLayout;
      PlaceholderShape(TimeFamily + "|" + CommonLogTimeLayout);
    case 'U' => PlaceholderShape("URLPath");
    case 'D' => PlaceholderShape("Latency|-");
    case 'T' => PlaceholderShape("Latency|s");
    case 'F' => PlaceholderShape("FirstByteTime|-");
  }

  /** `s` starts with a fixed directive. */
  predicate DirectiveAt(s: string) {
    |s| >= 2 && s[0] == '%' && Directive(s[1]).Some?
  }

  /**
   * The `strings.NewReplacer` pass: one left-to-right scan; a directive is
   * replaced by its placeholder and scanning resumes after it, any other
   * character is copied.
   */
  function ReplaceDirectives(s: string): string
    decreases |s|
  {
    if s == [] then []
    else if DirectiveAt(s) then Directive(s[1]).value + ReplaceDirectives(s[2..])
    else [s[0]] + ReplaceDirectives(s[1..])
  }

  /** No directive occurs anywhere in `s`. */
  predicate NoDirective(s: string) {
    forall i :: 0 <= i < |s| ==> !DirectiveAt(s[i..])
  }

  lemma NoPercentNoDirective(s: string)
    requires '%' !in s
    ensures NoDirective(s)
  {
  }

  /** Text holding no directive is copied unchanged. */
  lemma {:induction false} ReplaceWithoutDirective(s: string)
    requires NoDirective(s)
    ensures ReplaceDirectives(s) == s
    decreases |s|
  {
    if s != [] {
      assert !DirectiveAt(s[0..]) && s[0..] == s;
      forall i | 0 <= i < |s| - 1 ensures !DirectiveAt(s[1..][i..]) {
        assert s[1..][i..] == s[i + 1..];
      }
      ReplaceWithoutDirective(s[1..]);
    }
  }

  /** The first character of the output: `$` when a directive was replaced, the copied character otherwise. */
  lemma ReplaceFirst(s: string)
    requires s != []
    ensures ReplaceDirectives(s) != []
    ensures ReplaceDirectives(s)[0] == if DirectiveAt(s) then '$' else s[0]
  {
    if DirectiveAt(s) {
      DirectiveShape(s[1]);
    }
  }

  lemma NoDirectiveCons(c: char, s: string)
    requires NoDirective(s)
    requires c == '%' && s != [] ==> Directive(s[0]).None?
    ensures NoDirective([c] + s)
  {
    forall i | 0 <= i < |[c] + s| ensures !DirectiveAt(([c] + s)[i..]) {
      if i > 0 {
        assert ([c] + s)[i..] == s[i - 1..];
      }
    }
  }

  lemma NoDirectivePrefix(d: string, s: string)
    requires '%' !in d && NoDirective(s)
    ensures NoDirective(d + s)
  {
    forall i | 0 <= i < |d + s| ensures !DirectiveAt((d + s)[i..]) {
      if i >= |d| {
        assert (d + s)[i..] == s[i - |d|..];
      } else {
        assert (d + s)[i] == d[i];
      }
    }
  }

  /** Replaced text is never rescanned: the output of the pass holds no directive. */
  lemma {:induction false} ReplaceLeavesNoDirective(s: string)
    ensures NoDirective(ReplaceDirectives(s))
    decreases |s|
  {
    if s == [] {
    } else if DirectiveAt(s) {
      ReplaceLeavesNoDirective(s[2..]);
      DirectiveShape(s[1]);
      NoDirectivePrefix(Directive(s[1]).value, ReplaceDirectives(s[2..]));
    } else {
      ReplaceLeavesNoDirective(s[1..]);
      if |s| > 1 {
        ReplaceFirst(s[1..]);
      }
      NoDirectiveCons(s[0], ReplaceDirectives(s[1..]));
    }
  }

  /**
   * Text without `%` is copied, a directive after it becomes its
   * placeholder, and the scan goes on after the directive.
   */
  lemma ReplaceDirectiveAfter(a: string, c: char, b: string)
    requires '%' !in a && Directive(c).Some?
    ensures ReplaceDirectives(a + ['%', c] + b) == a + Directive(c).value + ReplaceDirectives(b)
  {
    var d := ['%', c] + b;
    assert a + ['%', c] + b == a + d;
    NoPercentNoDirective(a);
    ReplaceWithoutDirective(a);
    ReplaceAppend(a, d);
    assert DirectiveAt(d) && d[2..] == b;
  }

  /** Running the pass a second time changes nothing. */
  lemma ReplaceIdempotent(s: string)
    ensures ReplaceDirectives(ReplaceDirectives(s)) == ReplaceDirectives(s)
  {
    ReplaceLeavesNoDirective(s);
    ReplaceWithoutDirective(ReplaceDirectives(s));
  }

  /** The pass works piece by piece when the first piece does not end in `%`. */
  lemma {:induction false} ReplaceAppend(a: string, b: string)
    requires a == [] || a[|a| - 1] != '%'
    ensures ReplaceDirectives(a + b) == ReplaceDirectives(a) + ReplaceDirectives(b)
    decreases |a|
  {
    if a != [] {
      if DirectiveAt(a) {
        assert DirectiveAt(a + b) && (a + b)[1] == a[1];
        assert (a + b)[2..] == a[2..] + b;
        ReplaceAppend(a[2..], b);
      } else {
        assert !DirectiveAt(a + b) by {
          if |a| == 1 {
            assert (a + b)[0] == a[0] == a[|a| - 1];
          } else {
            assert (a + b)[1] == a[1];
          }
        }
        assert (a + b)[1..] == a[1..] + b;
        ReplaceAppend(a[1..], b);
      }
    } else {
      assert a + b == b;
    }
  }

  /**
   * Length of `F` when `s` starts with `%{F}k` (F non-empty and free of `}`),
   * otherwise -1: a match of the expression `%({([^}]+)})k` at position 0.
   */
  function MatchAt(s: string, k: char): (n: int)
    ensures n == -1 || 0 < n <= |s| - 4
    ensures 0 < n ==> s[0] == '%' && s[1] == '{' && s[n + 2] == '}' && s[n + 3] == k
  {
    if |s| < 2 || s[0] != '%' || s[1] != '{' then -1
    else
      var j := Index(s[2..], '}');
      if 0 < j && j + 3 < |s| && s[j + 3] == k then j else -1
  }

  /** The text captured by the second group of a match of length `n + 4`. */
  function Captured(s: string, n: int): string
    requires 0 <= n <= |s| - 4
  {
    s[2..n + 2]
  }

  /** `ReplaceAllString(s, "${family|$2}")` for the expression `%({([^}]+)})k`, leftmost matches first. */
  function ExpandMatches(s: string, k: char, family: string): string
    decreases |s|
  {
    if s == [] then []
    else
      var n := MatchAt(s, k);
      if n < 0 then [s[0]] + ExpandMatches(s[1..], k, family)
      else "${" + family + "|" + Captured(s, n) + "}" + ExpandMatches(s[n + 4..], k, family)
  }

  /** `ReplaceAllStringFunc(s, strings.ToLower)` for the same expression: each whole match lower-cased. */
  function LowerMatches(s: string, k: char): string
    decreases |s|
  {
    if s == [] then []
    else
      var n := MatchAt(s, k);
      if n < 0 then [s[0]] + LowerMatches(s[1..], k)
      else Lower(s[..n + 4]) + LowerMatches(s[n + 4..], k)
  }

  /** Reference rewrite: each `%{H}k` becomes `${family|h}` with h the lower-cased H. */
  function ExpandLowered(s: string, k: char, family: string): string
    decreases |s|
  {
    if s == [] then []
    else
      var n := MatchAt(s, k);
      if n < 0 then [s[0]] + ExpandLowered(s[1..], k, family)
      else "${" + family + "|" + Lower(Captured(s, n)) + "}" + ExpandLowered(s[n + 4..], k, family)
  }

  /**
   * `b` is `a` with some upper-case letters lowered, none of them right
   * after a `}`; such a change cannot move a match.
   */
  predicate Similar(a: string, b: string) {
    && |a| == |b|
    && (forall p :: 0 <= p < |a| ==> b[p] == a[p] || (IsUpper(a[p]) && b[p] == LowerChar(a[p])))
    && (forall p :: 0 < p < |a| && a[p - 1] == '}' ==> b[p] == a[p])
  }

  lemma SimilarMatchAt(a: string, b: string, k: char)
    requires Similar(a, b) && !IsUpper(k)
    ensures MatchAt(a, k) == MatchAt(b, k)
  {
    if |a| >= 2 && a[0] == '%' && a[1] == '{' {
      assert b[0] == '%' && b[1] == '{';
      IndexSamePositions(a[2..], b[2..], '}');
    }
  }

  /** Similar pieces put together stay similar, unless the second piece's first letter was lowered right after a `}`. */
  lemma SimilarAppend(a1: string, b1: string, a2: string, b2: string)
    requires Similar(a1, b1) && Similar(a2, b2)
    requires a1 != [] && a2 != [] && a1[|a1| - 1] == '}' ==> b2[0] == a2[0]
    ensures Similar(a1 + a2, b1 + b2)
  {
    var a, b := a1 + a2, b1 + b2;
    forall p | 0 <= p < |a| ensures b[p] == a[p] || (IsUpper(a[p]) && b[p] == LowerChar(a[p])) {
      if p < |a1| {
        assert a[p] == a1[p] && b[p] == b1[p];
      } else {
        assert a[p] == a2[p - |a1|] && b[p] == b2[p - |a1|];
      }
    }
    forall p | 0 < p < |a| && a[p - 1] == '}' ensures b[p] == a[p] {
      if p < |a1| {
        assert a[p - 1] == a1[p - 1] && a[p] == a1[p] && b[p] == b1[p];
      } else if p == |a1| {
        assert a[p - 1] == a1[p - 1] && a[p] == a2[0] && b[p] == b2[0];
      } else {
        assert a[p - 1] == a2[p - 1 - |a1|] && a[p] == a2[p - |a1|] && b[p] == b2[p - |a1|];
      }
    }
  }

  /** The only `}` among the first `n + 3` characters of a match is the one closing it. */
  lemma MatchEnd(s: string, k: char, n: int, q: int)
    requires 0 < n == MatchAt(s, k) && 0 <= q < n + 3
    ensures s[q] == '}' ==> q == n + 2
  {
    if 2 <= q < n + 2 {
      IndexFirst(s[2..], '}', q - 2);
    }
  }

  /** A whole match `%{F}k` and its lower-cased copy are similar: only letters of F change. */
  lemma SimilarMatch(s: string, k: char, n: int)
    requires !IsUpper(k) && 0 < n == MatchAt(s, k)
    ensures Similar(s[..n + 4], Lower(s[..n + 4]))
  {
    var m := s[..n + 4];
    forall p | 0 < p < |m| && m[p - 1] == '}' ensures Lower(m)[p] == m[p] {
      MatchEnd(s, k, n, p - 1);
    }
  }

  /** Copying a first character that starts no match keeps the similarity of the rest. */
  lemma SimilarCopy(s: string, k: char)
    requires s != [] && MatchAt(s, k) < 0
    requires Similar(s[1..], LowerMatches(s[1..], k))
    requires |s| > 1 ==> LowerMatches(s[1..], k)[0] == s[1]
    ensures Similar(s, LowerMatches(s, k)) && LowerMatches(s, k)[0] == s[0]
  {
    SimilarAppend([s[0]], [s[0]], s[1..], LowerMatches(s[1..], k));
    assert s == [s[0]] + s[1..];
  }

  /** Lower-casing a match at the front keeps the similarity of what follows it. */
  lemma SimilarLowerMatch(s: string, k: char, n: int)
    requires !IsUpper(k) && 0 < n == MatchAt(s, k)
    requires Similar(s[n + 4..], LowerMatches(s[n + 4..], k))
    requires |s| > n + 4 ==> LowerMatches(s[n + 4..], k)[0] == s[n + 4]
    ensures Similar(s, LowerMatches(s, k)) && LowerMatches(s, k)[0] == s[0]
  {
    var m := s[..n + 4];
    SimilarMatch(s, k, n);
    SimilarAppend(m, Lower(m), s[n + 4..], LowerMatches(s[n + 4..], k));
    assert s == m + s[n + 4..];
    assert m[0] == '%';
  }

  /** Lower-casing the matches changes only upper-case letters inside them, and never the first character. */
  lemma {:induction false} LowerMatchesSimilar(s: string, k: char)
    requires !IsUpper(k)
    ensures Similar(s, LowerMatches(s, k))
    ensures s != [] ==> LowerMatches(s, k)[0] == s[0]
    decreases |s|
  {
    if s != [] {
      var n := MatchAt(s, k);
      if n < 0 {
        LowerMatchesSimilar(s[1..], k);
        SimilarCopy(s, k);
      } else {
        LowerMatchesSimilar(s[n + 4..], k);
        SimilarLowerMatch(s, k, n);
      }
    }
  }

  /** A character that starts no match is copied by both rewrites. */
  lemma LowerThenExpandCopy(s: string, k: char, family: string)
    requires !IsUpper(k) && s != [] && MatchAt(s, k) < 0
    requires ExpandMatches(LowerMatches(s[1..], k), k, family) == ExpandLowered(s[1..], k, family)
    ensures ExpandMatches(LowerMatches(s, k), k, family) == ExpandLowered(s, k, family)
  {
    var l := LowerMatches(s, k);
    LowerMatchesSimilar(s, k);
    SimilarMatchAt(s, l, k);
    assert l[1..] == LowerMatches(s[1..], k);
  }

  /** A match at the front is lower-cased and then expanded into `${family|h}`. */
  lemma LowerThenExpandMatch(s: string, k: char, family: string, n: int)
    requires !IsUpper(k) && 0 < n == MatchAt(s, k)
    requires ExpandMatches(LowerMatches(s[n + 4..], k), k, family) == ExpandLowered(s[n + 4..], k, family)
    ensures ExpandMatches(LowerMatches(s, k), k, family) == ExpandLowered(s, k, family)
  {
    var l := LowerMatches(s, k);
    LowerMatchesSimilar(s, k);
    SimilarMatchAt(s, l, k);
    var m := s[..n + 4];
    assert l == Lower(m) + LowerMatches(s[n + 4..], k);
    assert l[n + 4..] == LowerMatches(s[n + 4..], k);
    assert Captured(l, n) == Lower(m)[2..n + 2];
    LowerSlice(m, 2, n + 2);
    assert m[2..n + 2] == Captured(s, n);
  }

  /**
   * The two rewrites of a header family, lower-casing every match and then
   * expanding it, turn each `%{H}k` into `${family|h}` with h the lower-cased H.
   */
  lemma {:induction false} LowerThenExpand(s: string, k: char, family: string)
    requires !IsUpper(k)
    ensures ExpandMatches(LowerMatches(s, k), k, family) == ExpandLowered(s, k, family)
    decreases |s|
  {
    if s != [] {
      var n := MatchAt(s, k);
      if n < 0 {
        LowerThenExpand(s[1..], k, family);
        LowerThenExpandCopy(s, k, family);
      } else {
        LowerThenExpand(s[n + 4..], k, family);
        LowerThenExpandMatch(s, k, family, n);
      }
    }
  }

  /** Text without `%` holds no match. */
  lemma {:induction false} ExpandWithoutPercent(s: string, k: char, family: string)
    requires '%' !in s
    ensures ExpandMatches(s, k, family) == s && LowerMatches(s, k) == s
    decreases |s|
  {
    if s != [] {
      assert s[1..] == s[|[s[0]]|..];
      ExpandWithoutPercent(s[1..], k, family);
    }
  }

  /** A single `%{F}k` item, and the text following it, with F non-empty and free of `}`. */
  lemma ExpandOne(f: string, k: char, family: string, rest: string)
    requires f != [] && NoEndTag(f)
    ensures ExpandMatches("%{" + f + "}" + [k] + rest, k, family)
         == "${" + family + "|" + f + "}" + ExpandMatches(rest, k, family)
  {
    var s := "%{" + f + "}" + [k] + rest;
    assert s[2..] == f + "}" + [k] + rest;
    FirstEndTag(f, s[2..]);
    assert MatchAt(s, k) == |f|;
    assert Captured(s, |f|) == f;
    assert s[|f| + 4..] == rest;
  }

  /** The text handed to the template splitter. */
  function BuildTemplateText(pattern: string): string {
    var fixed := ReplaceDirectives(pattern);
    var timed := ExpandMatches(fixed, 't', TimeFamily);
    var requested := ExpandMatches(LowerMatches(timed, 'i'), 'i', RequestHeaderFamily);
    ExpandMatches(LowerMatches(requested, 'o'), 'o', ResponseHeaderFamily)
  }

  /** The compiled template, or the splitter's error for a `${` left open. */
  function Compile(pattern: string): Result<Template, ParseError> {
    Parse(BuildTemplateText(pattern))
  }

  /** The header families end with lower-cased header names. */
  lemma BuildTemplateTextHeaders(pattern: string)
    ensures var timed := ExpandMatches(ReplaceDirectives(pattern), 't', TimeFamily);
            var requested := ExpandLowered(timed, 'i', RequestHeaderFamily);
            BuildTemplateText(pattern) == ExpandLowered(requested, 'o', ResponseHeaderFamily)
  {
    var timed := ExpandMatches(ReplaceDirectives(pattern), 't', TimeFamily);
    LowerThenExpand(timed, 'i', RequestHeaderFamily);
    LowerThenExpand(ExpandLowered(timed, 'i', RequestHeaderFamily), 'o', ResponseHeaderFamily);
  }

  /** A pattern without `%` reaches the splitter unchanged. */
  lemma BuildWithoutPercent(pattern: string)
    requires '%' !in pattern
    ensures BuildTemplateText(pattern) == pattern
  {
    assert NoDirective(pattern);
    ReplaceWithoutDirective(pattern);
    ExpandWithoutPercent(pattern, 't', TimeFamily);
    ExpandWithoutPercent(pattern, 'i', RequestHeaderFamily);
    ExpandWithoutPercent(pattern, 'o', ResponseHeaderFamily);
  }

  /** Compilation fails exactly when the rewritten text leaves a `${` unclosed. */
  lemma CompileFailsIffUnclosed(pattern: string)
    ensures Compile(pattern).Err? <==> exists q :: Unclosed(BuildTemplateText(pattern), q)
  {
    ParseFailsIffUnclosed(BuildTemplateText(pattern));
  }

  /** Once the fixed directives are replaced, text without `%` passes the header and time rewrites unchanged. */
  lemma BuildAfterDirectives(pattern: string)
    requires '%' !in ReplaceDirectives(pattern)
    ensures BuildTemplateText(pattern) == ReplaceDirectives(pattern)
  {
    var fixed := ReplaceDirectives(pattern);
    ExpandWithoutPercent(fixed, 't', TimeFamily);
    ExpandWithoutPercent(fixed, 'i', RequestHeaderFamily);
    ExpandWithoutPercent(fixed, 'o', ResponseHeaderFamily);
  }

  /** A pattern whose placeholder is left open, such as `%s${`, is refused. */
  lemma CompileUnclosedPlaceholder()
    ensures Compile("%s${").Err?
  {
    var p := "%s${";
    var d := Placeholder("StatusCode");
    var fixed := d + "${";
    assert DirectiveAt(p) && Directive(p[1]) == Some(d) && p[2..] == "${";
    assert ReplaceDirectives("${") == "${";
    assert ReplaceDirectives(p) == fixed;
    PlaceholderShape("StatusCode");
    BuildAfterDirectives(p);
    assert Unclosed(fixed, |d|);
    CompileFailsIffUnclosed(p);
  }

  /** Text before the first `%` is copied as it is by the expansion of a family. */
  lemma {:induction false} ExpandPrefixWithoutPercent(a: string, b: string, k: char, family: string)
    requires '%' !in a
    ensures ExpandMatches(a + b, k, family) == a + ExpandMatches(b, k, family)
    decreases |a|
  {
    if a == [] {
      assert a + b == b;
    } else {
      assert (a + b)[1..] == a[1..] + b;
      ExpandPrefixWithoutPercent(a[1..], b, k, family);
    }
  }

  /** Text before the first `%` is copied as it is by the lower-casing of a family. */
  lemma {:induction false} LowerPrefixWithoutPercent(a: string, b: string, k: char)
    requires '%' !in a
    ensures LowerMatches(a + b, k) == a + LowerMatches(b, k)
    decreases |a|
  {
    if a == [] {
      assert a + b == b;
    } else {
      assert (a + b)[1..] == a[1..] + b;
      LowerPrefixWithoutPercent(a[1..], b, k);
    }
  }

  /** A `%{F}k` item is left alone by the rewrite of another family. */
  lemma {:induction false} OtherItemUnchanged(f: string, k: char, k': char, family: string)
    requires NoEndTag(f) && '%' !in f && k != k' && k != '%'
    ensures ExpandMatches("%{" + f + "}" + [k], k', family) == "%{" + f + "}" + [k]
  {
    var item := "%{" + f + "}" + [k];
    assert item[2..] == f + "}" + [k];
    if f != [] {
      FirstEndTag(f, item[2..]);
    }
    assert MatchAt(item, k') == -1;
    assert item[1..] == "{" + f + "}" + [k];
    ExpandWithoutPercent(item[1..], k', family);
  }

  /** Lower-casing a whole `%{H}k` item lower-cases H only. */
  lemma {:induction false} LowerItem(h: string, k: char)
    requires !IsUpper(k)
    ensures Lower("%{" + h + "}" + [k]) == "%{" + Lower(h) + "}" + [k]
  {
    var item := "%{" + h + "}" + [k];
    var lowered := "%{" + Lower(h) + "}" + [k];
    forall i | 0 <= i < |item| ensures Lower(item)[i] == lowered[i] {
      if 2 <= i < |h| + 2 {
        assert item[i] == h[i - 2] && lowered[i] == Lower(h)[i - 2];
      }
    }
  }

  /** Lower-casing the matches of a lone `%{H}k` item. */
  lemma {:induction false} LowerMatchesItem(h: string, k: char)
    requires h != [] && NoEndTag(h) && !IsUpper(k)
    ensures LowerMatches("%{" + h + "}" + [k], k) == "%{" + Lower(h) + "}" + [k]
  {
    var item := "%{" + h + "}" + [k];
    assert item[2..] == h + "}" + [k];
    FirstEndTag(h, item[2..]);
    var n := |h|;
    assert MatchAt(item, k) == n;
    assert item[..n + 4] == item && item[n + 4..] == [];
    LowerItem(h, k);
  }

  /** Expanding a lone `%{F}k` item. */
  lemma {:induction false} ExpandItem(f: string, k: char, family: string)
    requires f != [] && NoEndTag(f)
    ensures ExpandMatches("%{" + f + "}" + [k], k, family) == "${" + family + "|" + f + "}"
  {
    ExpandOne(f, k, family, []);
    assert "%{" + f + "}" + [k] + [] == "%{" + f + "}" + [k];
    assert ExpandMatches([], k, family) == [];
  }

  /** The header rewrite of a `%{H}k` item after text without `%`. */
  lemma {:induction false} HeaderItemAfter(a: string, h: string, k: char, family: string)
    requires '%' !in a && h != [] && NoEndTag(h) && !IsUpper(k)
    ensures ExpandMatches(LowerMatches(a + ("%{" + h + "}" + [k]), k), k, family)
         == a + ("${" + family + "|" + Lower(h) + "}")
  {
    var item := "%{" + h + "}" + [k];
    var lowered := "%{" + Lower(h) + "}" + [k];
    LowerPrefixWithoutPercent(a, item, k);
    LowerMatchesItem(h, k);
    ExpandPrefixWithoutPercent(a, lowered, k, family);
    ExpandItem(Lower(h), k, family);
  }

  /** A `%{F}k` item after text without `%` is left alone by the rewrite of another family. */
  lemma {:induction false} OtherItemAfter(a: string, f: string, k: char, k': char, family: string)
    requires '%' !in a && NoEndTag(f) && '%' !in f && k != k' && k != '%'
    ensures ExpandMatches(a + ("%{" + f + "}" + [k]), k', family) == a + ("%{" + f + "}" + [k])
  {
    ExpandPrefixWithoutPercent(a, "%{" + f + "}" + [k], k', family);
    OtherItemUnchanged(f, k, k', family);
  }

  lemma {:induction false} LowerKeepsOut(h: string)
    requires '%' !in h && NoEndTag(h)
    ensures '%' !in Lower(h) && NoEndTag(Lower(h))
  {
    forall i | 0 <= i < |h| ensures Lower(h)[i] != '%' && Lower(h)[i] != '}' {
      assert h[i] != '%' && h[i] != '}';
    }
  }

  /** Text free of `${` followed by one tag splits into the text and the tag. */
  lemma {:induction false} SplitTextThenTag(a: string, tag: string)
    requires IndexPair(a, '$', '{') < 0 && NoEndTag(tag)
    ensures Parse(a + ("${" + tag + "}")) == Ok(Template([a, ""], [tag]))
  {
    var s := a + ("${" + tag + "}");
    FirstStartTag(a, s);
    var rest := s[|a| + 2..];
    assert rest == tag + "}";
    FirstEndTag(tag, rest);
    assert rest[|tag| + 1..] == [];
    assert Parse([]) == Ok(Template([""], []));
    assert s[..|a|] == a && rest[..|tag|] == tag;
    assert Parse(s) == Ok(Template([a] + [""], [tag] + []));
    assert [a] + [""] == [a, ""] && [tag] + [] == [tag];
  }

  lemma {:induction false} TagText(a: string, family: string, h: string)
    requires '%' !in a && '%' !in family && '%' !in h
    ensures a + ("${" + family + "|" + h + "}") == a + ("${" + (family + "|" + h) + "}")
    ensures '%' !in a + ("${" + (family + "|" + h) + "}")
  {
  }

  /** Text without `%` followed by one `%{H}k` item holds no fixed directive. */
  lemma ItemNoDirective(a: string, h: string, k: char)
    requires '%' !in a && '%' !in h && k != '%'
    ensures NoDirective(a + ("%{" + h + "}" + [k]))
  {
    var item := "%{" + h + "}" + [k];
    var p := a + item;
    forall i | 0 <= i < |p| ensures !DirectiveAt(p[i..]) {
      if i < |a| {
        assert p[i] == a[i];
      } else if i != |a| {
        assert p[i] == item[i - |a|];
        if 2 <= i - |a| < |h| + 2 {
          assert item[i - |a|] == h[i - |a| - 2];
        }
      }
    }
  }

  /** The rewrites turn literal text followed by `%{H}i` into that text and `${RequestHeader|h}`. */
  lemma {:induction false} BuildRequestHeader(a: string, h: string)
    requires '%' !in a
    requires h != [] && '%' !in h && NoEndTag(h)
    ensures BuildTemplateText(a + ("%{" + h + "}" + ['i']))
         == a + ("${" + (RequestHeaderFamily + "|" + Lower(h)) + "}")
  {
    var p := a + ("%{" + h + "}" + ['i']);
    ItemNoDirective(a, h, 'i');
    ReplaceWithoutDirective(p);
    OtherItemAfter(a, h, 'i', 't', TimeFamily);
    HeaderItemAfter(a, h, 'i', RequestHeaderFamily);
    LowerKeepsOut(h);
    TagText(a, RequestHeaderFamily, Lower(h));
    var tag := RequestHeaderFamily + "|" + Lower(h);
    ExpandWithoutPercent(a + ("${" + tag + "}"), 'o', ResponseHeaderFamily);
  }

  /**
   * Literal text followed by `%{H}i` compiles to that text and the request
   * header h, the lower-cased H.
   */
  lemma CompileRequestHeader(a: string, h: string)
    requires '%' !in a && IndexPair(a, '$', '{') < 0
    requires h != [] && '%' !in h && NoEndTag(h)
    ensures Compile(a + ("%{" + h + "}" + ['i']))
         == Ok(Template([a, ""], [RequestHeaderFamily + "|" + Lower(h)]))
  {
    BuildRequestHeader(a, h);
    LowerKeepsOut(h);
    SplitTextThenTag(a, RequestHeaderFamily + "|" + Lower(h));
  }
}
