/**
 * The part of the fasttemplate library the access logger relies on: splitting
 * the compiled pattern text into literal texts and `${tag}` tags (start tag
 * `${`, end tag `}`), and executing the split template with a tag function.
 */
module FastTemplate {
  import opened Wrappers
  import opened Text

  /** A split template: `texts[0]`, `tags[0]`, `texts[1]`, ..., `tags[n-1]`, `texts[n]`. */
  datatype Template = Template(texts: seq<string>, tags: seq<string>)

  /** Compilation error: a `${` with no `}` after it; `from` is the text after that `${`. */
  datatype ParseError = MissingEndTag(from: string)

  predicate Shaped(t: Template) {
    |t.texts| == |t.tags| + 1
  }

  /** What every successful split produces: no text holds a `${`, no tag holds a `}`. */
  predicate WellFormed(t: Template)
    decreases |t.tags|
  {
    && Shaped(t)
    && IndexPair(t.texts[0], '$', '{') < 0
    && (t.tags != [] ==> NoEndTag(t.tags[0]) && WellFormed(Rest(t)))
  }

  /** No `}` from position `from` on. */
  predicate NoEndTagFrom(s: string, from: int) {
    forall j :: 0 <= j < |s| && from <= j ==> s[j] != '}'
  }

  lemma NoEndTagInSuffix(s: string, from: int)
    requires 0 <= from <= |s| && '}' !in s[from..]
    ensures NoEndTagFrom(s, from)
  {
    forall j | 0 <= j < |s| && from <= j ensures s[j] != '}' {
      assert s[j] == s[from..][j - from];
    }
  }

  predicate NoEndTag(tag: string) {
    NoEndTagFrom(tag, 0)
  }

  function Rest(t: Template): Template
    requires Shaped(t) && t.tags != []
  {
    Template(t.texts[1..], t.tags[1..])
  }

  /** The template text the split came from. */
  function Unparse(t: Template): string
    requires Shaped(t)
    decreases |t.tags|
  {
    if t.tags == [] then t.texts[0]
    else t.texts[0] + "${" + t.tags[0] + "}" + Unparse(Rest(t))
  }

  /** A `${` at `q` that no later `}` closes. */
  predicate Unclosed(s: string, q: int) {
    PairAt(s, q, '$', '{') && NoEndTagFrom(s, q + 2)
  }

  /**
   * `fasttemplate.NewTemplate(s, "${", "}")`: find the first `${`, then the
   * first `}` after it; the text between is a tag; repeat on what follows.
   */
  function Parse(s: string): (r: Result<Template, ParseError>)
    ensures r.Ok? ==> Shaped(r.value)
    decreases |s|
  {
    var n := IndexPair(s, '$', '{');
    if n < 0 then Ok(Template([s], []))
    else
      var rest := s[n + 2..];
      var m := Index(rest, '}');
      if m < 0 then Err(MissingEndTag(rest))
      else match Parse(rest[m + 1..])
        case Err(e) => Err(e)
        case Ok(t) => Ok(Template([s[..n]] + t.texts, [rest[..m]] + t.tags))
  }

  /** One step of a successful split that found a `${`. */
  lemma ParseStep(s: string) returns (n: int, m: int)
    requires Parse(s).Ok? && IndexPair(s, '$', '{') >= 0
    ensures n == IndexPair(s, '$', '{') && 0 <= m == Index(s[n + 2..], '}')
    ensures Parse(s[n + 2..][m + 1..]).Ok?
    ensures Parse(s).value
         == Template([s[..n]] + Parse(s[n + 2..][m + 1..]).value.texts,
                     [s[n + 2..][..m]] + Parse(s[n + 2..][m + 1..]).value.tags)
  {
    n := IndexPair(s, '$', '{');
    var rest := s[n + 2..];
    m := Index(rest, '}');
    if m < 0 {
      assert false;
    } else {
      var r := Parse(rest[m + 1..]);
      if r.Err? {
        assert false;
      }
    }
  }

  /** A successful split leaves no `${` in a text and no `}` in a tag. */
  lemma {:induction false} ParseWellFormed(s: string)
    requires Parse(s).Ok?
    ensures WellFormed(Parse(s).value)
    decreases |s|
  {
    if IndexPair(s, '$', '{') >= 0 {
      var n, m := ParseStep(s);
      var tail := s[n + 2..][m + 1..];
      ParseWellFormed(tail);
      assert Rest(Parse(s).value) == Parse(tail).value;
      NoPairBefore(s, n);
      NoEndTagBefore(s[n + 2..], m);
    }
  }

  /** A successful split puts the text back together. */
  lemma {:induction false} ParseUnparses(s: string)
    requires Parse(s).Ok?
    ensures Unparse(Parse(s).value) == s
    decreases |s|
  {
    var n := IndexPair(s, '$', '{');
    if n >= 0 {
      var rest := s[n + 2..];
      var m := Index(rest, '}');
      assert m >= 0;
      var tail := rest[m + 1..];
      ParseUnparses(tail);
      var t := Parse(tail).value;
      var r := Parse(s).value;
      assert r == Template([s[..n]] + t.texts, [rest[..m]] + t.tags);
      assert Rest(r) == t;
      assert Unparse(r) == s[..n] + "${" + rest[..m] + "}" + Unparse(t);
      SplitAround(s, n, m);
    }
  }

  lemma SplitAround(s: string, n: int, m: int)
    requires PairAt(s, n, '$', '{') && 0 <= m < |s| - n - 2 && s[n + 2 + m] == '}'
    ensures s == s[..n] + "${" + s[n + 2..][..m] + "}" + s[n + 2..][m + 1..]
  {
    var rest := s[n + 2..];
    assert rest == rest[..m] + "}" + rest[m + 1..];
    assert s == s[..n] + "${" + rest;
  }

  lemma NoPairBefore(s: string, n: int)
    requires 0 <= n == IndexPair(s, '$', '{')
    ensures IndexPair(s[..n], '$', '{') < 0
  {
    var k := IndexPair(s[..n], '$', '{');
    if k >= 0 {
      assert PairAt(s, k, '$', '{');
      IndexPairFirst(s, '$', '{', k);
    }
  }

  /** The text before the first `}` holds no `}`. */
  lemma NoEndTagBefore(s: string, m: int)
    requires 0 <= m == Index(s, '}')
    ensures NoEndTag(s[..m])
  {
    forall j | 0 <= j < m ensures s[..m][j] != '}' {
      IndexFirst(s, '}', j);
    }
  }

  /** When there is no `}` in `s[from..]`, none is there from `from` on. */
  lemma NoEndTagAfter(s: string, from: int)
    requires 0 <= from <= |s| && Index(s[from..], '}') < 0
    ensures NoEndTagFrom(s, from)
  {
    forall j | 0 <= j < |s| && from <= j ensures s[j] != '}' {
      IndexFirst(s[from..], '}', j - from);
    }
  }

  /** No `${` between an opening `${` at `n` and the `}` closing it stays unclosed. */
  lemma ClosedBetween(s: string, n: int, m: int, q: int)
    requires PairAt(s, n, '$', '{') && 0 <= m && n + 2 + m < |s| && s[n + 2 + m] == '}'
    requires n <= q < n + 3 + m
    ensures !Unclosed(s, q)
  {
    if q <= n + m {
      assert !NoEndTagFrom(s, q + 2) by {
        assert s[n + 2 + m] == '}';
      }
    }
  }

  /** Splitting fails exactly when some `${` is never closed by a later `}`. */
  lemma {:induction false} ParseFailsIffUnclosed(s: string)
    ensures Parse(s).Err? <==> exists q :: Unclosed(s, q)
    decreases |s|
  {
    var n := IndexPair(s, '$', '{');
    if n < 0 {
      forall q ensures !Unclosed(s, q) {
        if 0 <= q {
          IndexPairFirst(s, '$', '{', q);
        }
      }
    } else {
      var rest := s[n + 2..];
      var m := Index(rest, '}');
      if m < 0 {
        NoEndTagAfter(s, n + 2);
        assert Unclosed(s, n);
      } else {
        var off := n + 3 + m;
        var tail := rest[m + 1..];
        assert tail == s[off..];
        ParseFailsIffUnclosed(tail);
        if q' :| Unclosed(tail, q') {
          assert s[off + q' + 2..] == tail[q' + 2..];
          assert Unclosed(s, off + q');
        }
        if q :| Unclosed(s, q) {
          if q < n {
            IndexPairFirst(s, '$', '{', q);
          } else if q < off {
            ClosedBetween(s, n, m, q);
          } else {
            assert tail[q - off + 2..] == s[q + 2..];
            assert Unclosed(tail, q - off);
          }
        }
      }
    }
  }

  /** In `text ${tag}...` with no `${` inside `text`, the first `${` is the one after `text`. */
  lemma FirstStartTag(t0: string, s: string)
    requires IndexPair(t0, '$', '{') < 0
    requires |s| >= |t0| + 2 && s[..|t0|] == t0 && s[|t0|] == '$' && s[|t0| + 1] == '{'
    ensures IndexPair(s, '$', '{') == |t0|
  {
    forall k | 0 <= k < |t0| ensures !PairAt(s, k, '$', '{') {
      if k + 1 < |t0| {
        IndexPairFirst(t0, '$', '{', k);
        assert !PairAt(t0, k, '$', '{');
      }
    }
    IndexPairIs(s, '$', '{', |t0|);
  }

  /** In `tag}...` with no `}` inside `tag`, the first `}` is the one after `tag`. */
  lemma FirstEndTag(tag: string, s: string)
    requires NoEndTag(tag)
    requires |s| > |tag| && s[..|tag|] == tag && s[|tag|] == '}'
    ensures Index(s, '}') == |tag|
  {
    forall k | 0 <= k < |tag| ensures s[k] != '}' {
      assert s[k] == tag[k];
    }
    IndexIs(s, '}', |tag|);
  }

  /** Splitting `text ${tag}tail` yields `text`, `tag`, then the split of `tail`. */
  lemma ParseCons(t0: string, tag0: string, tail: string, rt: Template)
    requires IndexPair(t0, '$', '{') < 0 && NoEndTag(tag0) && Parse(tail) == Ok(rt)
    ensures Parse(t0 + "${" + tag0 + "}" + tail) == Ok(Template([t0] + rt.texts, [tag0] + rt.tags))
  {
    var s := t0 + "${" + tag0 + "}" + tail;
    FirstStartTag(t0, s);
    var rest := s[|t0| + 2..];
    assert rest == tag0 + "}" + tail;
    FirstEndTag(tag0, rest);
    assert rest[|tag0| + 1..] == tail;
    assert s[..|t0|] == t0 && rest[..|tag0|] == tag0;
  }

  /** Splitting is the inverse of `Unparse` on well-formed templates. */
  lemma {:induction false} ParseUnparse(t: Template)
    requires WellFormed(t)
    ensures Parse(Unparse(t)) == Ok(t)
    decreases |t.tags|
  {
    if t.tags != [] {
      ParseUnparse(Rest(t));
      ParseCons(t.texts[0], t.tags[0], Unparse(Rest(t)), Rest(t));
      assert [t.texts[0]] + Rest(t).texts == t.texts;
      assert [t.tags[0]] + Rest(t).tags == t.tags;
    } else {
      assert t.texts == [t.texts[0]];
    }
  }

  /**
   * `Template.ExecuteFunc`: each text copied, each tag replaced by what the
   * tag function renders for it.
   */
  function Execute(t: Template, f: string -> string): string
    requires Shaped(t)
    decreases |t.tags|
  {
    if t.tags == [] then t.texts[0]
    else t.texts[0] + f(t.tags[0]) + Execute(Rest(t), f)
  }

  /** Executing with a tag function that writes each tag back as `${tag}` reproduces the template text. */
  lemma {:induction false} ExecuteEchoIsUnparse(t: Template)
    requires Shaped(t)
    ensures Execute(t, tag => "${" + tag + "}") == Unparse(t)
    decreases |t.tags|
  {
    if t.tags != [] {
      ExecuteEchoIsUnparse(Rest(t));
    }
  }
}
