/** The article text normaliser: `merge_text` joins an article's description
    and content, `truncate_content` shortens stored content to a word
    boundary. Strings are sequences of Unicode code points, as in Python 3. */
module TextUtils {
  import opened Articles

  /** `truncate_content`'s default `limit`. */
  const DefaultLimit: nat := 300
  const Ellipsis: string := "..."

  /** The characters Python's `str.strip()` removes (those for which
      `str.isspace()` holds). */
  predicate IsSpace(c: char)
  {
    || c == ' '
    || '\t' <= c <= '\r'
    || '\U{1C}' <= c <= '\U{1F}'
    || c == '\U{85}' || c == '\U{A0}' || c == '\U{1680}'
    || '\U{2000}' <= c <= '\U{200A}'
    || c == '\U{2028}' || c == '\U{2029}' || c == '\U{202F}'
    || c == '\U{205F}' || c == '\U{3000}'
  }

  predicate AllSpace(s: string)
  {
    forall i | 0 <= i < |s| :: IsSpace(s[i])
  }

  /** Neither end of `s` is whitespace. */
  predicate IsStripped(s: string)
  {
    s == [] || (!IsSpace(s[0]) && !IsSpace(s[|s| - 1]))
  }

  /** `s.lstrip()`: the longest suffix of `s` not starting with whitespace. */
  function LStrip(s: string): (r: string)
    ensures |r| <= |s| && r == s[|s| - |r|..]
    ensures AllSpace(s[..|s| - |r|])
    ensures r == [] || !IsSpace(r[0])
  {
    if s != [] && IsSpace(s[0]) then
      var r := LStrip(s[1..]);
      LStripStep(s, r);
      r
    else s
  }

  /** `s.rstrip()`: the longest prefix of `s` not ending in whitespace. */
  function RStrip(s: string): (r: string)
    ensures |r| <= |s| && r == s[..|r|]
    ensures AllSpace(s[|r|..])
    ensures r == [] || !IsSpace(r[|r| - 1])
  {
    if s != [] && IsSpace(s[|s| - 1]) then
      var r := RStrip(s[..|s| - 1]);
      RStripStep(s, r);
      r
    else s
  }

  /** A leading space dropped in front of `s[1..]`'s stripped suffix. */
  lemma LStripStep(s: string, r: string)
    requires s != [] && IsSpace(s[0])
    requires var tail := s[1..]; |r| <= |tail| && r == tail[|tail| - |r|..] && AllSpace(tail[..|tail| - |r|])
    ensures |r| <= |s| && r == s[|s| - |r|..] && AllSpace(s[..|s| - |r|])
  {
    var tail := s[1..];
    assert tail[|tail| - |r|..] == s[|s| - |r|..];
    assert s[..|s| - |r|] == [s[0]] + tail[..|tail| - |r|];
    SpaceCons(s[0], tail[..|tail| - |r|]);
  }

  /** A trailing space dropped after `s[..|s|-1]`'s stripped prefix. */
  lemma RStripStep(s: string, r: string)
    requires s != [] && IsSpace(s[|s| - 1])
    requires var init := s[..|s| - 1]; |r| <= |init| && r == init[..|r|] && AllSpace(init[|r|..])
    ensures |r| <= |s| && r == s[..|r|] && AllSpace(s[|r|..])
  {
    var init := s[..|s| - 1];
    assert init[..|r|] == s[..|r|];
    assert s[|r|..] == init[|r|..] + [s[|s| - 1]];
    SpaceSnoc(init[|r|..], s[|s| - 1]);
  }

  lemma SpaceCons(c: char, t: string)
    requires IsSpace(c) && AllSpace(t)
    ensures AllSpace([c] + t)
  {
    forall i | 0 <= i < |[c] + t|
      ensures IsSpace(([c] + t)[i])
    {
      if i > 0 { assert ([c] + t)[i] == t[i - 1]; }
    }
  }

  lemma SpaceSnoc(t: string, c: char)
    requires AllSpace(t) && IsSpace(c)
    ensures AllSpace(t + [c])
  {
    forall i | 0 <= i < |t + [c]|
      ensures IsSpace((t + [c])[i])
    {
      if i < |t| { assert (t + [c])[i] == t[i]; }
    }
  }

  /** `s.strip()` */
  function Strip(s: string): (r: string)
    ensures IsStripped(r)
    ensures IsStripped(s) ==> r == s
  {
    RStrip(LStrip(s))
  }

  lemma {:induction false} LStripSkipsSpace(a: string, t: string)
    requires AllSpace(a)
    requires t == [] || !IsSpace(t[0])
    ensures LStrip(a + t) == t
  {
    if a != [] {
      assert (a + t)[1..] == a[1..] + t;
      LStripSkipsSpace(a[1..], t);
    }
  }

  lemma {:induction false} RStripSkipsSpace(t: string, c: string)
    requires AllSpace(c)
    requires t == [] || !IsSpace(t[|t| - 1])
    ensures RStrip(t + c) == t
  {
    if c != [] {
      var c' := c[..|c| - 1];
      assert (t + c)[..|t + c| - 1] == t + c';
      RStripSkipsSpace(t, c');
    }
  }

  /** Stripping removes exactly the surrounding whitespace. */
  lemma StripSurrounded(a: string, b: string, c: string)
    requires AllSpace(a) && AllSpace(c) && IsStripped(b) && b != []
    ensures Strip(a + b + c) == b
  {
    assert a + b + c == a + (b + c);
    LStripSkipsSpace(a, b + c);
    RStripSkipsSpace(b, c);
  }

  /** A non-whitespace character anywhere keeps the stripped text non-empty. */
  lemma StripKeepsNonSpace(s: string, k: nat)
    requires k < |s| && !IsSpace(s[k])
    ensures Strip(s) != []
  {
    var l := LStrip(s);
    assert |s| - |l| <= k;
    assert l != [] && !IsSpace(l[0]);
  }

  /** `merge_text`: absent (falsy) description or content count as `""`;
      the result is `desc + ". " + cont` without surrounding whitespace. The
      `'.'` in the middle always survives, so the result is never empty. */
  function MergeText(description: Option<string>, content: Option<string>): (r: string)
    ensures r != [] && IsStripped(r)
  {
    var desc := OrElse(description, "");
    var joined := desc + ". " + OrElse(content, "");
    assert joined[|desc|] == '.';
    StripKeepsNonSpace(joined, |desc|);
    Strip(joined)
  }

  /** Both parts absent or blank: the merged text is the lone full stop. */
  lemma MergeBlank(description: Option<string>, content: Option<string>)
    requires AllSpace(OrElse(description, "")) && AllSpace(OrElse(content, ""))
    ensures MergeText(description, content) == "."
  {
    var desc, cont := OrElse(description, ""), OrElse(content, "");
    assert desc + ". " + cont == desc + "." + (" " + cont);
    StripSurrounded(desc, ".", " " + cont);
  }

  /** Already stripped parts with non-empty content are joined verbatim. */
  lemma MergeStrippedParts(description: Option<string>, content: Option<string>)
    requires IsStripped(OrElse(description, "")) && IsStripped(OrElse(content, ""))
    requires Truthy(content)
    ensures MergeText(description, content) == OrElse(description, "") + ". " + content.value
  {
    var desc, cont := OrElse(description, ""), content.value;
    var joined := desc + ". " + cont;
    if desc == [] {
      assert joined[0] == '.';
    } else {
      assert joined[0] == desc[0];
    }
    assert joined[|joined| - 1] == cont[|cont| - 1];
    assert IsStripped(joined);
  }

  /** With blank content only the description and its full stop remain. */
  lemma MergeBlankContent(description: Option<string>, content: Option<string>)
    requires IsStripped(OrElse(description, "")) && AllSpace(OrElse(content, ""))
    ensures MergeText(description, content) == OrElse(description, "") + "."
  {
    var desc, cont := OrElse(description, ""), OrElse(content, "");
    var kept := desc + ".";
    if desc == [] {
      assert kept[0] == '.';
    } else {
      assert kept[0] == desc[0];
    }
    assert IsStripped(kept);
    assert desc + ". " + cont == [] + kept + (" " + cont);
    StripSurrounded([], kept, " " + cont);
  }

  /** `t.rsplit(' ', 1)[0]`: everything before the last `' '`, or all of `t`
      when it has none. */
  function BeforeLastSpace(t: string): (r: string)
    ensures |r| <= |t| && r == t[..|r|]
    ensures |r| < |t| ==> t[|r|] == ' ' && ' ' !in t[|r| + 1..]
    ensures |r| == |t| ==> ' ' !in t
  {
    if t == [] then []
    else if t[|t| - 1] == ' ' then t[..|t| - 1]
    else
      var init := t[..|t| - 1];
      var r := BeforeLastSpace(init);
      if |r| == |init| then t
      else
        assert init[..|r|] == t[..|r|];
        assert t[|r| + 1..] == init[|r| + 1..] + [t[|t| - 1]];
        r
  }

  /** How a too-long stripped text `s` is cut: the kept part `r[..|r|-3]`
      is a stripped prefix of `s` that reaches the last `' '` within the
      first `limit` characters (or the limit itself when there is none) up to
      whitespace only, and `"..."` follows it. */
  ghost predicate IsTruncation(s: string, limit: nat, r: string)
  {
    && limit < |s|
    && |r| >= |Ellipsis| && r[|r| - |Ellipsis|..] == Ellipsis
    && var kept, cut := r[..|r| - |Ellipsis|], |BeforeLastSpace(s[..limit])|;
    && |kept| <= cut && kept == s[..|kept|]
    && IsStripped(kept)
    && AllSpace(s[|kept|..cut])
    && (0 < limit ==> kept != [])
  }

  /** Stripping a prefix `t` of a stripped text only trims `t`'s right end:
      what is kept is a prefix of `t` and the rest of `t` is whitespace. */
  lemma StripPrefix(s: string, t: string)
    requires IsStripped(s) && |t| <= |s| && t == s[..|t|]
    ensures var k := Strip(t);
            && |k| <= |t| && k == s[..|k|]
            && AllSpace(s[|k|..|t|])
            && (t != [] ==> k != [])
  {
    if t != [] {
      assert t[0] == s[0];
      assert LStrip(t) == t;
    }
    var k := RStrip(t);
    assert k == t[..|k|];
    assert s[|k|..|t|] == t[|k|..];
  }

  /** The long case of `truncate_content` for stripped `s`: cut at the last
      `' '` within the first `limit` characters, strip, append `"..."`. */
  function TruncateAtWord(s: string, limit: nat): (r: string)
    requires IsStripped(s) && limit < |s|
    ensures IsTruncation(s, limit, r)
    ensures |r| <= limit + |Ellipsis|
  {
    var kept := Strip(BeforeLastSpace(s[..limit]));
    CutIsTruncation(s, limit, kept);
    kept + Ellipsis
  }

  /** The text `TruncateAtWord` keeps, followed by `"..."`, meets
      `IsTruncation`. */
  lemma CutIsTruncation(s: string, limit: nat, kept: string)
    requires IsStripped(s) && limit < |s| && kept == Strip(BeforeLastSpace(s[..limit]))
    ensures IsTruncation(s, limit, kept + Ellipsis) && |kept| <= limit
  {
    var head := s[..limit];
    var truncated := BeforeLastSpace(head);
    assert truncated == head[..|truncated|] && |truncated| <= limit;
    assert head[..|truncated|] == s[..|truncated|];
    StripPrefix(s, truncated);
    assert 0 < limit ==> truncated != [];
    TruncationOfCut(s, limit, |truncated|, kept);
  }

  /** A stripped prefix `kept` of `s` that reaches position `cut` of the
      last `' '` up to whitespace only, followed by `"..."`, meets
      `IsTruncation`. */
  lemma TruncationOfCut(s: string, limit: nat, cut: nat, kept: string)
    requires limit < |s| && cut == |BeforeLastSpace(s[..limit])|
    requires |kept| <= cut && kept == s[..|kept|] && IsStripped(kept) && AllSpace(s[|kept|..cut])
    requires 0 < limit ==> kept != []
    ensures IsTruncation(s, limit, kept + Ellipsis)
  {
    var r := kept + Ellipsis;
    assert r[..|r| - |Ellipsis|] == kept;
    assert r[|r| - |Ellipsis|..] == Ellipsis;
  }

  /** `truncate_content` */
  function TruncateContent(content: Option<string>, limit: nat): (r: string)
    ensures !Truthy(content) ==> r == ""
    ensures Truthy(content) && |Strip(content.value)| <= limit ==> r == Strip(content.value)
    ensures Truthy(content) && |Strip(content.value)| > limit ==> IsTruncation(Strip(content.value), limit, r)
    ensures content.Some? && IsStripped(content.value) && |content.value| <= limit ==> r == content.value
    ensures |r| <= limit + |Ellipsis|
  {
    if !Truthy(content) then ""
    else
      var s := Strip(content.value);
      if |s| <= limit then s else TruncateAtWord(s, limit)
  }
}
