/**
 * `clean_html` (bot_simple.py): the normaliser applied to every raw HTML
 * fragment the wiki returns.  It is a chain of four string rewrites:
 *
 *   1. remove every match of the regular expression `<[^>]+>`;
 *   2. decode character references (`html.unescape`);
 *   3. replace every run of whitespace (`\s+`) by one space;
 *   4. strip whitespace from both ends (`str.strip()`).
 *
 * Each step is a function here, and CleanHtml is their composition.
 */
module Text {
  import opened Wrappers

  /** Python's `str.isspace()`, which is also what `\s` and `str.strip()`
      match in a `str` pattern: the ASCII controls 9..13 and 0x1C..0x1F,
      the space, NEL, NO-BREAK SPACE and the Unicode space separators. */
  predicate IsSpace(c: char) {
    var n := c as int;
    (9 <= n <= 13) || (0x1C <= n <= 0x20) || n == 0x85 || n == 0xA0 || n == 0x1680
    || (0x2000 <= n <= 0x200A) || n == 0x2028 || n == 0x2029 || n == 0x202F
    || n == 0x205F || n == 0x3000
  }

  // ---------------------------------------------------------------------
  // Step 1: re.sub(r'<[^>]+>', '', text)
  // ---------------------------------------------------------------------

  /** The position of the first '>' in s, or |s| when s has none. */
  function FirstClose(s: string): (k: nat)
    ensures k <= |s|
    ensures k < |s| ==> s[k] == '>'
    ensures forall i :: 0 <= i < k ==> s[i] != '>'
  {
    if s == [] then 0
    else if s[0] == '>' then 0
    else 1 + FirstClose(s[1..])
  }

  /** The pattern `<[^>]+>` matches at the front of s.  `[^>]+` is greedy
      but cannot cross a '>', so the match, when there is one, ends at the
      first '>' and needs at least one character before it. */
  predicate TagAtFront(s: string) {
    |s| > 0 && s[0] == '<' && 2 <= FirstClose(s) < |s|
  }

  /** Somewhere in t: a '<', one or more characters other than '>', a '>'. */
  predicate ContainsTag(t: string) {
    exists i, j :: 0 <= i && i + 2 <= j < |t| && t[i] == '<' && t[j] == '>'
      && forall k :: i < k < j ==> t[k] != '>'
  }

  /** Left-to-right, non-overlapping removal of every match of `<[^>]+>`,
      as `re.sub` performs it.  Characters are only ever dropped. */
  function StripTags(s: string): (r: string)
    ensures |r| <= |s|
    ensures forall c :: c in r ==> c in s
    decreases |s|
  {
    if s == [] then []
    else if TagAtFront(s) then StripTags(s[FirstClose(s) + 1..])
    else [s[0]] + StripTags(s[1..])
  }

  /** A string starting with a tag contains one. */
  lemma TagAtFrontIsTag(t: string)
    ensures TagAtFront(t) ==> ContainsTag(t)
  {
    if TagAtFront(t) {
      var j := FirstClose(t);
      assert t[0] == '<' && t[j] == '>' && forall k :: 0 < k < j ==> t[k] != '>';
    }
  }

  /** A tag in the tail of t is a tag in t. */
  lemma TagInTail(c: char, t: string)
    ensures ContainsTag(t) ==> ContainsTag([c] + t)
  {
    if ContainsTag(t) {
      var u := [c] + t;
      var i, j :| 0 <= i && i + 2 <= j < |t| && t[i] == '<' && t[j] == '>'
        && forall k :: i < k < j ==> t[k] != '>';
      assert u[i + 1] == '<' && u[j + 1] == '>';
      assert forall k :: i + 1 < k < j + 1 ==> u[k] == t[k - 1];
    }
  }

  /** A string starting with '>' keeps that '>' in front. */
  lemma StripTagsKeepsLeadingClose(s: string)
    requires |s| > 0 && s[0] == '>'
    ensures |StripTags(s)| > 0 && StripTags(s)[0] == '>'
  {
    assert !TagAtFront(s);
  }

  /** After `re.sub(r'<[^>]+>', '', s)` no tag is left, even one that the
      removal of another could have brought together. */
  lemma {:induction false} StripTagsLeavesNoTag(s: string)
    ensures !ContainsTag(StripTags(s))
    decreases |s|
  {
    if s == [] {
    } else if TagAtFront(s) {
      StripTagsLeavesNoTag(s[FirstClose(s) + 1..]);
    } else {
      var rest := StripTags(s[1..]);
      assert StripTags(s) == [s[0]] + rest;
      StripTagsLeavesNoTag(s[1..]);
      if s[0] == '<' {
        if FirstClose(s) == |s| {
          // no '>' anywhere after the '<', so none survives in rest
          assert '>' !in s[1..];
        } else {
          // the '<' is directly followed by '>', which stays in front of rest
          StripTagsKeepsLeadingClose(s[1..]);
        }
      }
      NoTagAfterHead(s[0], rest);
    }
  }

  /** A character in front of tag-free text makes no tag, unless it is a
      '<' that a later '>' closes with something in between. */
  lemma NoTagAfterHead(c: char, rest: string)
    requires !ContainsTag(rest)
    requires c == '<' ==> '>' !in rest || (|rest| > 0 && rest[0] == '>')
    ensures !ContainsTag([c] + rest)
  {
    TagFreeIsClosed(rest);
    var r := [c] + rest;
    // every '<' ... '>' pair of r has a '>' in between
    forall i, j | 0 <= i && i + 2 <= j < |r| && r[i] == '<' && r[j] == '>'
      ensures '>' in r[i + 1..j]
    {
      assert r[j] == rest[j - 1] == '>';
      if i == 0 {
        // the head is a '<': rest has a '>', so it starts with one
        assert r[1..j][0] == rest[0] == '>';
      } else {
        assert rest[i - 1] == '<';
        assert r[i + 1..j] == rest[i..j - 1];
      }
    }
    NoTagWhenClosed(r);
  }

  /** In tag-free text a '>' comes between every '<' and a '>' more than
      one character after it. */
  lemma TagFreeIsClosed(t: string)
    requires !ContainsTag(t)
    ensures forall i, j :: 0 <= i && i + 2 <= j < |t| && t[i] == '<' && t[j] == '>' ==>
      '>' in t[i + 1..j]
  {
    forall i, j | 0 <= i && i + 2 <= j < |t| && t[i] == '<' && t[j] == '>'
      ensures '>' in t[i + 1..j]
    {
      var k :| i < k < j && t[k] == '>';
      assert t[i + 1..j][k - i - 1] == '>';
    }
  }

  /** Conversely, text in which a '>' comes between every '<' and a '>'
      more than one character after it has no tag. */
  lemma NoTagWhenClosed(t: string)
    requires forall i, j :: 0 <= i && i + 2 <= j < |t| && t[i] == '<' && t[j] == '>' ==>
      '>' in t[i + 1..j]
    ensures !ContainsTag(t)
  {
    forall i, j | 0 <= i && i + 2 <= j < |t| && t[i] == '<' && t[j] == '>'
      ensures exists k :: i < k < j && t[k] == '>'
    {
      var m :| 0 <= m < j - i - 1 && t[i + 1..j][m] == '>';
      assert t[i + 1 + m] == '>';
    }
  }

  /** A string without tags is left alone by the removal step. */
  lemma {:induction false} StripTagsKeepsTagFree(t: string)
    requires !ContainsTag(t)
    ensures StripTags(t) == t
    decreases |t|
  {
    if t != [] {
      TagAtFrontIsTag(t);
      TagInTail(t[0], t[1..]);
      assert [t[0]] + t[1..] == t;
      StripTagsKeepsTagFree(t[1..]);
    }
  }

  /** The fixed points of the removal step are exactly the tag-free
      strings, so the step on its own is idempotent. */
  lemma StripTagsFixedPoints(t: string)
    ensures StripTags(t) == t <==> !ContainsTag(t)
    ensures StripTags(StripTags(t)) == StripTags(t)
  {
    StripTagsLeavesNoTag(t);
    if !ContainsTag(t) {
      StripTagsKeepsTagFree(t);
    }
    StripTagsKeepsTagFree(StripTags(t));
  }

  // ---------------------------------------------------------------------
  // Step 2: html.unescape(text), over a small table of references
  // ---------------------------------------------------------------------

  /** The character reference that starts s, if it is one the model
      decodes, as its length and its character: the five that
      `html.escape` produces, and the decimal apostrophe MediaWiki emits. */
  function EntityAt(s: string): (e: Option<(nat, char)>)
    ensures e.Some? ==> 0 < e.value.0 <= |s| && s[0] == '&'
  {
    if "&amp;" <= s then Some((5, '&'))
    else if "&lt;" <= s then Some((4, '<'))
    else if "&gt;" <= s then Some((4, '>'))
    else if "&quot;" <= s then Some((6, '"'))
    else if "&#x27;" <= s then Some((6, '\''))
    else if "&#39;" <= s then Some((5, '\''))
    else None
  }

  /** Left-to-right decoding: at each '&' that starts a known reference the
      reference becomes its character, and decoding resumes after it (the
      produced character is not looked at again, as in `html.unescape`). */
  function Unescape(s: string): (r: string)
    ensures |r| <= |s|
    decreases |s|
  {
    if s == [] then []
    else match EntityAt(s)
      case Some(e) => [e.1] + Unescape(s[e.0..])
      case None => [s[0]] + Unescape(s[1..])
  }

  /** Python's `html.escape(c, quote=True)` for one character. */
  function EscapeChar(c: char): string {
    if c == '&' then "&amp;"
    else if c == '<' then "&lt;"
    else if c == '>' then "&gt;"
    else if c == '"' then "&quot;"
    else if c == '\'' then "&#x27;"
    else [c]
  }

  /** Python's `html.escape(s, quote=True)`: the reference inverse of Unescape. */
  function Escape(s: string): (r: string)
    ensures |r| >= |s|
  {
    if s == [] then [] else EscapeChar(s[0]) + Escape(s[1..])
  }

  /** Decoding the escape of one character gives that character back,
      whatever follows it. */
  lemma UnescapeEscapedChar(c: char, rest: string)
    ensures Unescape(EscapeChar(c) + rest) == [c] + Unescape(rest)
  {
    var e := EscapeChar(c);
    var s := e + rest;
    assert s[..|e|] == e && s[|e|..] == rest;
    if c == '&' {
      assert EntityAt(s) == Some((5, '&'));
    } else if c == '<' {
      assert s[1] == 'l';
      assert EntityAt(s) == Some((4, '<'));
    } else if c == '>' {
      assert s[1] == 'g';
      assert EntityAt(s) == Some((4, '>'));
    } else if c == '"' {
      assert s[1] == 'q';
      assert EntityAt(s) == Some((6, '"'));
    } else if c == '\'' {
      assert s[1] == '#' && s[2] == 'x';
      assert EntityAt(s) == Some((6, '\''));
    } else {
      assert s[0] == c && s[1..] == rest;
      assert EntityAt(s) == None;
    }
  }

  /** `html.unescape(html.escape(s)) == s`. */
  lemma {:induction false} UnescapeEscape(s: string)
    ensures Unescape(Escape(s)) == s
  {
    if s != [] {
      UnescapeEscapedChar(s[0], Escape(s[1..]));
      UnescapeEscape(s[1..]);
    }
  }

  /** Text without '&' has nothing to decode. */
  lemma {:induction false} UnescapeWithoutAmpersand(s: string)
    requires '&' !in s
    ensures Unescape(s) == s
  {
    if s != [] {
      assert EntityAt(s) == None;
      assert '&' !in s[1..];
      UnescapeWithoutAmpersand(s[1..]);
    }
  }

  /** The references the model decodes, each with its character: the
      reference table that Unescape is checked against. */
  const References: seq<(string, char)> :=
    [("&amp;", '&'), ("&lt;", '<'), ("&gt;", '>'), ("&quot;", '"'),
     ("&#x27;", '\''), ("&#39;", '\'')]

  /** Each reference of the table becomes its character, whatever follows. */
  lemma UnescapeReference(k: nat, t: string)
    requires k < |References|
    ensures Unescape(References[k].0 + t) == [References[k].1] + Unescape(t)
  {
    var (ref, c) := References[k];
    var s := ref + t;
    assert s[..|ref|] == ref && s[|ref|..] == t;
    assert s[0] == '&';
    if k == 0 {
      assert EntityAt(s) == Some((5, '&'));
    } else if k == 1 {
      assert s[1] == 'l';
      assert EntityAt(s) == Some((4, '<'));
    } else if k == 2 {
      assert s[1] == 'g';
      assert EntityAt(s) == Some((4, '>'));
    } else if k == 3 {
      assert s[1] == 'q';
      assert EntityAt(s) == Some((6, '"'));
    } else if k == 4 {
      assert s[1] == '#' && s[2] == 'x';
      assert EntityAt(s) == Some((6, '\''));
    } else {
      assert s[1] == '#' && s[2] == '3';
      assert EntityAt(s) == Some((5, '\''));
    }
  }

  /** A '&' that starts no reference of the table is kept as it is, and
      decoding goes on with the next character. */
  lemma UnescapeBareAmpersand(t: string)
    requires forall k :: 0 <= k < |References| ==> !(References[k].0 <= "&" + t)
    ensures Unescape("&" + t) == "&" + Unescape(t)
  {
    var s := "&" + t;
    assert !(References[0].0 <= s) && !(References[1].0 <= s) && !(References[2].0 <= s);
    assert !(References[3].0 <= s) && !(References[4].0 <= s) && !(References[5].0 <= s);
    assert EntityAt(s) == None;
    assert s[1..] == t;
  }

  /** Text without '&' passes through decoding unchanged, and decoding of
      what follows it goes on unaffected. */
  lemma {:induction false} UnescapeAfterText(x: string, t: string)
    requires '&' !in x
    ensures Unescape(x + t) == x + Unescape(t)
  {
    if x != [] {
      assert x[0] != '&' && '&' !in x[1..];
      SplitFirst(x, t);
      UnescapePlain(x[0], x[1..] + t);
      UnescapeAfterText(x[1..], t);
      SplitFirst(x, Unescape(t));
    } else {
      assert x + t == t;
    }
  }

  /** A character other than '&' is copied by decoding. */
  lemma UnescapePlain(c: char, u: string)
    requires c != '&'
    ensures Unescape([c] + u) == [c] + Unescape(u)
  {
    assert ([c] + u)[1..] == u;
  }

  // ---------------------------------------------------------------------
  // Steps 3 and 4: re.sub(r'\s+', ' ', text) and text.strip()
  // ---------------------------------------------------------------------

  /** No two neighbouring characters of t are both whitespace. */
  predicate NoDoubleSpace(t: string) {
    forall i :: 0 <= i < |t| - 1 ==> !(IsSpace(t[i]) && IsSpace(t[i + 1]))
  }

  /** The only whitespace character in t is the plain space. */
  predicate OnlyPlainSpaces(t: string) {
    forall i :: 0 <= i < |t| && IsSpace(t[i]) ==> t[i] == ' '
  }

  /** The characters of s that are not whitespace, in order. */
  function NonSpace(s: string): string {
    if s == [] then []
    else (if IsSpace(s[0]) then [] else [s[0]]) + NonSpace(s[1..])
  }

  /** `s.lstrip()`: drops the longest whitespace prefix. */
  function DropLeadingSpaces(s: string): (r: string)
    ensures |r| <= |s| && r == s[|s| - |r|..]
    ensures r == [] || !IsSpace(r[0])
    ensures forall i :: 0 <= i < |s| - |r| ==> IsSpace(s[i])
  {
    if s != [] && IsSpace(s[0]) then
      var r := DropLeadingSpaces(s[1..]);
      assert s[1..][|s| - 1 - |r|..] == s[|s| - |r|..];
      assert forall i :: 1 <= i < |s| - |r| ==> s[i] == s[1..][i - 1];
      r
    else s
  }

  /** `s.rstrip()`: drops the longest whitespace suffix. */
  function DropTrailingSpaces(s: string): (r: string)
    ensures |r| <= |s| && r == s[..|r|]
    ensures r == [] || !IsSpace(r[|r| - 1])
    ensures forall i :: |r| <= i < |s| ==> IsSpace(s[i])
  {
    if s != [] && IsSpace(s[|s| - 1]) then DropTrailingSpaces(s[..|s| - 1]) else s
  }

  /** `s.strip()`. */
  function Strip(s: string): (r: string)
    ensures r == [] || (!IsSpace(r[0]) && !IsSpace(r[|r| - 1]))
  {
    var l := DropLeadingSpaces(s);
    var r := DropTrailingSpaces(l);
    assert r != [] ==> r[0] == l[0];
    r
  }

  /** `re.sub(r'\s+', ' ', s)`: every maximal run of whitespace becomes one
      space.  Its contract says the result keeps the other characters, has
      no whitespace but plain spaces and never two of them side by side, and
      has whitespace at either end exactly where s has. */
  function Collapse(s: string): (r: string)
    ensures |s| > 0 <==> |r| > 0
    ensures |s| > 0 ==> (IsSpace(s[0]) <==> IsSpace(r[0]))
    ensures NoDoubleSpace(r)
    ensures OnlyPlainSpaces(r)
    decreases |s|
  {
    if s == [] then []
    else if IsSpace(s[0]) then [' '] + Collapse(DropLeadingSpaces(s[1..]))
    else [s[0]] + Collapse(s[1..])
  }

  /** NonSpace distributes over concatenation. */
  lemma {:induction false} NonSpaceAppend(a: string, b: string)
    ensures NonSpace(a + b) == NonSpace(a) + NonSpace(b)
  {
    if a == [] {
      assert a + b == b;
    } else {
      assert (a + b)[0] == a[0];
      assert (a + b)[1..] == a[1..] + b;
      NonSpaceAppend(a[1..], b);
      var h := if IsSpace(a[0]) then [] else [a[0]];
      calc {
        NonSpace(a + b);
        h + NonSpace(a[1..] + b);
        h + (NonSpace(a[1..]) + NonSpace(b));
        (h + NonSpace(a[1..])) + NonSpace(b);
      }
    }
  }

  /** Collapsing whitespace keeps every other character, in order. */
  lemma {:induction false} CollapseKeepsText(s: string)
    ensures NonSpace(Collapse(s)) == NonSpace(s)
    decreases |s|
  {
    if s != [] {
      var t := s[1..];
      if IsSpace(s[0]) {
        var d := DropLeadingSpaces(t);
        CollapseKeepsText(d);
        DropLeadingKeepsText(t);
        var c := [' '] + Collapse(d);
        assert c[0] == ' ' && c[1..] == Collapse(d);
      } else {
        CollapseKeepsText(t);
        var c := [s[0]] + Collapse(t);
        assert c[0] == s[0] && c[1..] == Collapse(t);
      }
    }
  }

  /** lstrip of a whitespace run followed by text that does not start with
      whitespace leaves exactly that text. */
  lemma {:induction false} DropLeadingOfRun(r: string, t: string)
    requires forall i :: 0 <= i < |r| ==> IsSpace(r[i])
    requires t == [] || !IsSpace(t[0])
    ensures DropLeadingSpaces(r + t) == t
  {
    if r == [] {
      assert r + t == t;
    } else {
      assert (r + t)[0] == r[0];
      assert (r + t)[1..] == r[1..] + t;
      DropLeadingOfRun(r[1..], t);
    }
  }

  /** A maximal run of whitespace, of any length and kind, becomes one plain
      space. */
  lemma CollapseRun(r: string, t: string)
    requires |r| > 0 && forall i :: 0 <= i < |r| ==> IsSpace(r[i])
    requires t == [] || !IsSpace(t[0])
    ensures Collapse(r + t) == [' '] + Collapse(t)
  {
    RunFront(r, t);
    CollapseSpaceFront(r + t);
  }

  /** r + t starts with whitespace, and after that first character lstrip
      drops the rest of the run and stops at t. */
  lemma RunFront(r: string, t: string)
    requires |r| > 0 && forall i :: 0 <= i < |r| ==> IsSpace(r[i])
    requires t == [] || !IsSpace(t[0])
    ensures |r + t| > 0 && IsSpace((r + t)[0]) && DropLeadingSpaces((r + t)[1..]) == t
  {
    assert (r + t)[0] == r[0] && (r + t)[1..] == r[1..] + t;
    DropLeadingOfRun(r[1..], t);
  }

  /** A string starting with whitespace collapses to one space and the
      collapse of what follows the whole run. */
  lemma CollapseSpaceFront(s: string)
    requires |s| > 0 && IsSpace(s[0])
    ensures Collapse(s) == [' '] + Collapse(DropLeadingSpaces(s[1..]))
  {
  }

  /** Appending to a non-empty string appends to its tail. */
  lemma SplitFirst(w: string, t: string)
    requires |w| > 0
    ensures w + t == [w[0]] + (w[1..] + t)
  {
  }

  /** One character other than whitespace is copied unchanged. */
  lemma CollapseNonSpace(c: char, t: string)
    requires !IsSpace(c)
    ensures Collapse([c] + t) == [c] + Collapse(t)
  {
    assert ([c] + t)[1..] == t;
  }

  /** Characters other than whitespace are copied unchanged. */
  lemma {:induction false} CollapseWord(w: string, t: string)
    requires forall i :: 0 <= i < |w| ==> !IsSpace(w[i])
    ensures Collapse(w + t) == w + Collapse(t)
  {
    if w == [] {
      assert w + t == t;
    } else {
      var rest := w[1..];
      SplitFirst(w, t);
      CollapseNonSpace(w[0], rest + t);
      CollapseWord(rest, t);
      SplitFirst(w, Collapse(t));
    }
  }

  /** Where the stripped text starts in s. */
  function StripStart(s: string): (a: nat)
    ensures a <= |s|
  {
    |s| - |DropLeadingSpaces(s)|
  }

  /** lstrip drops no character other than whitespace. */
  lemma {:induction false} DropLeadingKeepsText(s: string)
    ensures NonSpace(DropLeadingSpaces(s)) == NonSpace(s)
  {
    if s != [] && IsSpace(s[0]) {
      DropLeadingKeepsText(s[1..]);
    }
  }

  /** rstrip drops no character other than whitespace. */
  lemma {:induction false} DropTrailingKeepsText(s: string)
    ensures NonSpace(DropTrailingSpaces(s)) == NonSpace(s)
  {
    if s != [] && IsSpace(s[|s| - 1]) {
      var p := s[..|s| - 1];
      DropTrailingKeepsText(p);
      assert s == p + [s[|s| - 1]];
      NonSpaceAppend(p, [s[|s| - 1]]);
    }
  }

  /** A prefix of a suffix is a slice. */
  lemma PrefixOfSuffix(s: string, a: nat, n: nat)
    requires a + n <= |s|
    ensures s[a..][..n] == s[a..a + n]
  {
  }

  /** Stripping keeps a contiguous part of s. */
  lemma StripSlice(s: string)
    ensures StripStart(s) + |Strip(s)| <= |s|
    ensures Strip(s) == s[StripStart(s)..StripStart(s) + |Strip(s)|]
  {
    PrefixOfSuffix(s, StripStart(s), |Strip(s)|);
  }

  /** Stripping drops whitespace only. */
  lemma StripKeepsText(s: string)
    ensures NonSpace(Strip(s)) == NonSpace(s)
  {
    DropLeadingKeepsText(s);
    DropTrailingKeepsText(DropLeadingSpaces(s));
  }

  /** A contiguous part of a string keeps its whitespace properties. */
  lemma SliceKeepsSpacing(s: string, a: nat, b: nat)
    requires a <= b <= |s|
    requires NoDoubleSpace(s) && OnlyPlainSpaces(s)
    ensures NoDoubleSpace(s[a..b]) && OnlyPlainSpaces(s[a..b])
  {
    var t := s[a..b];
    forall i | 0 <= i < |t| - 1 ensures !(IsSpace(t[i]) && IsSpace(t[i + 1])) {
      assert t[i] == s[a + i] && t[i + 1] == s[a + i + 1];
    }
    forall i | 0 <= i < |t| && IsSpace(t[i]) ensures t[i] == ' ' {
      assert t[i] == s[a + i];
    }
  }

  /** Stripping keeps the spacing of text with only single plain spaces. */
  lemma StripKeepsSpacing(c: string)
    requires NoDoubleSpace(c) && OnlyPlainSpaces(c)
    ensures NoDoubleSpace(Strip(c)) && OnlyPlainSpaces(Strip(c))
  {
    StripSlice(c);
    var a := StripStart(c);
    SliceKeepsSpacing(c, a, a + |Strip(c)|);
  }

  // ---------------------------------------------------------------------
  // The composition
  // ---------------------------------------------------------------------

  /** `clean_html(html_content)`. */
  function CleanHtml(html: string): string {
    Strip(Collapse(Unescape(StripTags(html))))
  }

  /** The whitespace steps: collapsing then stripping leaves no whitespace
      at either end, only plain spaces, never two in a row, and every other
      character, in order. */
  lemma CollapseStripShape(u: string)
    ensures var r := Strip(Collapse(u));
      (r == [] || (!IsSpace(r[0]) && !IsSpace(r[|r| - 1])))
      && NoDoubleSpace(r) && OnlyPlainSpaces(r)
      && NonSpace(r) == NonSpace(u)
  {
    var c := Collapse(u);
    StripKeepsSpacing(c);
    StripKeepsText(c);
    CollapseKeepsText(u);
  }

  /** What `clean_html` guarantees of its output: no whitespace at either
      end, only plain spaces, never two in a row, and every other character
      of the decoded, tag-free text, in order. */
  lemma CleanHtmlShape(html: string)
    ensures var r := CleanHtml(html);
      (r == [] || (!IsSpace(r[0]) && !IsSpace(r[|r| - 1])))
      && NoDoubleSpace(r) && OnlyPlainSpaces(r)
      && NonSpace(r) == NonSpace(Unescape(StripTags(html)))
  {
    CollapseStripShape(Unescape(StripTags(html)));
  }

  /** Text without '<' has no tag to remove. */
  lemma {:induction false} StripTagsWithoutOpen(s: string)
    requires '<' !in s
    ensures StripTags(s) == s
  {
    if s != [] {
      assert '<' !in s[1..];
      StripTagsWithoutOpen(s[1..]);
    }
  }

  /** Text without '<' is kept as it is, and removal goes on after it as
      if it were not there. */
  lemma {:induction false} StripTagsAfterText(x: string, t: string)
    requires '<' !in x
    ensures StripTags(x + t) == x + StripTags(t)
  {
    if x != [] {
      assert '<' !in x[1..];
      assert (x + t)[0] == x[0] != '<';
      assert (x + t)[1..] == x[1..] + t;
      StripTagsAfterText(x[1..], t);
      SplitFirst(x, StripTags(t));
    } else {
      assert x + t == t && x + StripTags(t) == StripTags(t);
    }
  }

  /** A tag at the front is removed whole. */
  lemma StripTagsLeadingTag(y: string, z: string)
    requires |y| > 0 && '>' !in y
    ensures StripTags("<" + y + ">" + z) == StripTags(z)
  {
    var s := "<" + y + ">" + z;
    assert s[0] == '<' && s[|y| + 1] == '>' && s[|y| + 2..] == z;
    assert forall i :: 0 < i <= |y| ==> s[i] == y[i - 1];
    assert FirstClose(s) == |y| + 1;
  }

  /** `<>` is no tag: `[^>]+` needs at least one character, so both
      brackets are kept and removal goes on after them. */
  lemma StripTagsEmptyBrackets(z: string)
    ensures StripTags("<>" + z) == "<>" + StripTags(z)
  {
    var s := "<>" + z;
    var u := ">" + z;
    assert s[1..] == u && u[1..] == z;
    assert FirstClose(u) == 0;
    assert !TagAtFront(s) && !TagAtFront(u);
  }

  lemma AppendTag(x: string, y: string, z: string)
    ensures x + "<" + y + ">" + z == x + ("<" + y + ">" + z)
  {
  }

  /** A tag `<y>` after text x without '<' is removed whole, and x and what
      follows the tag are kept: with StripTagsWithoutOpen this pins down
      StripTags on every string built of plain text and tags. */
  lemma StripTagsTag(x: string, y: string, z: string)
    requires '<' !in x
    requires |y| > 0 && '>' !in y
    ensures StripTags(x + "<" + y + ">" + z) == x + StripTags(z)
  {
    AppendTag(x, y, z);
    StripTagsAfterText(x, "<" + y + ">" + z);
    StripTagsLeadingTag(y, z);
  }

  /** Text without whitespace is left alone by collapsing. */
  lemma {:induction false} CollapseWithoutSpace(s: string)
    requires forall i :: 0 <= i < |s| ==> !IsSpace(s[i])
    ensures Collapse(s) == s
  {
    if s != [] {
      var t := s[1..];
      assert !IsSpace(s[0]);
      CollapseWithoutSpace(t);
      assert [s[0]] + t == s;
    }
  }

  /** Text with no whitespace at either end is left alone by stripping. */
  lemma StripKeepsTrimmed(s: string)
    requires s == [] || (!IsSpace(s[0]) && !IsSpace(s[|s| - 1]))
    ensures Strip(s) == s
  {
  }

  /** "&lt;b&gt;" is the escaped form of "<b>". */
  lemma EscapedTag()
    ensures Escape("<b>") == "&lt;b&gt;"
  {
    assert "<b>"[1..] == "b>" && "b>"[1..] == ">" && ">"[1..] == [];
    assert Escape(">") == "&gt;";
    assert Escape("b>") == "b&gt;";
  }

  /** The first pass over "&lt;b&gt;" only decodes it. */
  lemma DecodeEscapedTag()
    ensures Unescape(StripTags("&lt;b&gt;")) == "<b>"
  {
    var s := "&lt;b&gt;";
    assert forall i :: 0 <= i < |s| ==> s[i] != '<';
    StripTagsWithoutOpen(s);
    EscapedTag();
    UnescapeEscape("<b>");
  }

  /** "<b>" is a tag, removed whole. */
  lemma TagIsStripped()
    ensures StripTags("<b>") == ""
  {
    assert "<b>"[1..] == "b>" && "b>"[1..] == ">";
    assert FirstClose("<b>") == 2;
    assert "<b>"[3..] == [];
  }

  /** Whitespace-free decoded text is what `clean_html` returns. */
  lemma CleanHtmlOfSolid(html: string, decoded: string)
    requires Unescape(StripTags(html)) == decoded
    requires forall i :: 0 <= i < |decoded| ==> !IsSpace(decoded[i])
    ensures CleanHtml(html) == decoded
  {
    CollapseWithoutSpace(decoded);
    if decoded != [] {
      assert !IsSpace(decoded[0]) && !IsSpace(decoded[|decoded| - 1]);
    }
    StripKeepsTrimmed(decoded);
    assert CleanHtml(html) == Strip(Collapse(decoded));
  }

  /** One pass of `clean_html` over "&lt;b&gt;" yields "<b>". */
  lemma CleanHtmlOfEscapedTag()
    ensures CleanHtml("&lt;b&gt;") == "<b>"
  {
    DecodeEscapedTag();
    CleanHtmlOfSolid("&lt;b&gt;", "<b>");
  }

  /** `clean_html` is not idempotent: a decoded "&lt;b&gt;" is a tag that a
      second pass removes. */
  lemma CleanHtmlNotIdempotent()
    ensures CleanHtml("&lt;b&gt;") == "<b>"
    ensures CleanHtml(CleanHtml("&lt;b&gt;")) == ""
  {
    CleanHtmlOfEscapedTag();
    TagIsStripped();
  }
}
