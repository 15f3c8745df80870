/**
 * The expression-level formatting rules of the command handlers
 * (bot_simple.py): the display-length caps and their truncation, the
 * `/recent` limit clamp, page links built from titles, and the decimal
 * rendering of numbers in field names.
 */
module Format {

  /** The display caps, one per place the handlers truncate text. */
  const InfoCap: nat := 1500     // get_info, the page lead
  const RandomCap: nat := 1000   // random_page, the page lead
  const CommentCap: nat := 100   // recent_changes, an edit comment
  const AiCap: nat := 2000       // ai_info, the text put into the prompt
  const SnippetCap: nat := 200   // search_wiki, a result snippet

  const Ellipsis := "..."

  // ---------------------------------------------------------------------
  // Truncation
  // ---------------------------------------------------------------------

  /** `if len(text) > cap: text = text[:cap] + "..."`: text longer than the
      cap keeps its first cap characters and gains an ellipsis; shorter text
      is unchanged. */
  function Truncate(text: string, cap: nat): (r: string)
    ensures |text| <= cap ==> r == text
    ensures |text| > cap ==> r == text[..cap] + Ellipsis && |r| == cap + 3
  {
    if |text| > cap then text[..cap] + Ellipsis else text
  }

  /** Truncation never yields more than cap + 3 characters, and always
      starts with as much of the text as fits under the cap. */
  lemma TruncateBounds(text: string, cap: nat)
    ensures |Truncate(text, cap)| <= cap + 3
    ensures var n := if |text| < cap then |text| else cap;
      n <= |Truncate(text, cap)| && Truncate(text, cap)[..n] == text[..n]
  {
  }

  /** Truncating twice with the same cap is truncating once. */
  lemma TruncateIdempotent(text: string, cap: nat)
    ensures Truncate(Truncate(text, cap), cap) == Truncate(text, cap)
  {
    if |text| > cap {
      var r := text[..cap] + Ellipsis;
      assert r[..cap] == text[..cap];
    }
  }

  /** The texts truncation leaves alone are exactly those within the cap
      and those that already are a cap-long prefix followed by "...". */
  lemma TruncateFixedPoints(text: string, cap: nat)
    ensures Truncate(text, cap) == text
        <==> |text| <= cap || (|text| == cap + 3 && text[cap..] == Ellipsis)
  {
    if |text| == cap + 3 && text[cap..] == Ellipsis {
      assert text == text[..cap] + text[cap..];
    }
    if |text| > cap && Truncate(text, cap) == text {
      assert text[cap..] == (text[..cap] + Ellipsis)[cap..];
    }
  }

  /** The search snippet is the exception: `snippet[:200] + "..."` always
      appends the ellipsis, so it is at most 203 characters long and always
      ends in "...", and it differs from truncation on every snippet within
      the cap. */
  function SnippetText(snippet: string): (r: string)
    ensures |r| <= SnippetCap + 3
    ensures |r| >= 3 && r[|r| - 3..] == Ellipsis
    ensures |snippet| <= SnippetCap ==> r == snippet + Ellipsis && r != Truncate(snippet, SnippetCap)
    ensures |snippet| > SnippetCap ==> r == Truncate(snippet, SnippetCap)
  {
    (if |snippet| <= SnippetCap then snippet else snippet[..SnippetCap]) + Ellipsis
  }

  // ---------------------------------------------------------------------
  // The /recent limit
  // ---------------------------------------------------------------------

  /** The default of the `limit` parameter of `/recent`, also what an
      out-of-range small value is replaced by. */
  const DefaultLimit: int := 5
  const MaxLimit: int := 10

  /** `if limit > 10: limit = 10 elif limit < 1: limit = 5`. */
  function ClampLimit(limit: int): (r: int)
    ensures 1 <= r <= MaxLimit
    ensures limit > MaxLimit ==> r == MaxLimit
    ensures limit < 1 ==> r == DefaultLimit
    ensures 1 <= limit <= MaxLimit ==> r == limit
  {
    if limit > MaxLimit then MaxLimit
    else if limit < 1 then DefaultLimit
    else limit
  }

  /** Clamping an accepted limit changes nothing, so clamping is
      idempotent; but it is not monotone: 0 asks for more entries than 1. */
  lemma ClampLimitShape(limit: int)
    ensures ClampLimit(ClampLimit(limit)) == ClampLimit(limit)
    ensures ClampLimit(0) > ClampLimit(1)
  {
  }

  // ---------------------------------------------------------------------
  // Page links
  // ---------------------------------------------------------------------

  /** `s.replace(a, b)` for single characters: every a becomes b and every
      other character stays where it is. */
  function Replace(s: string, a: char, b: char): (r: string)
    ensures |r| == |s|
    ensures forall i :: 0 <= i < |s| ==> r[i] == (if s[i] == a then b else s[i])
  {
    if s == [] then []
    else [if s[0] == a then b else s[0]] + Replace(s[1..], a, b)
  }

  /** Replacing a by b in a text without b is undone by replacing b by a. */
  lemma ReplaceBack(s: string, a: char, b: char)
    requires b !in s
    ensures Replace(Replace(s, a, b), b, a) == s
  {
    var r := Replace(s, a, b);
    assert forall i :: 0 <= i < |s| ==> s[i] != b;
    assert forall i :: 0 <= i < |s| ==> Replace(r, b, a)[i] == s[i];
  }

  /** `f"{OSRS_WIKI_BASE_URL}/{title.replace(' ', '_')}"`.  The title is not
      percent-encoded. */
  function PageUrl(base: string, title: string): string {
    base + "/" + Replace(title, ' ', '_')
  }

  /** A page link is the base, a slash and the title with no space left in
      it; a title without underscores can be read back from its link. */
  lemma PageUrlShape(base: string, title: string)
    ensures var u := PageUrl(base, title);
      |u| == |base| + 1 + |title| && u[..|base| + 1] == base + "/"
      && ' ' !in u[|base| + 1..]
      && (forall i :: 0 <= i < |title| && title[i] != ' ' ==> u[|base| + 1 + i] == title[i])
      && ('_' !in title ==> Replace(u[|base| + 1..], '_', ' ') == title)
  {
    var u := PageUrl(base, title);
    var t := Replace(title, ' ', '_');
    assert u[|base| + 1..] == t;
    assert forall i :: 0 <= i < |title| ==> u[|base| + 1 + i] == t[i];
    if '_' !in title {
      ReplaceBack(title, ' ', '_');
    }
  }


  // ---------------------------------------------------------------------
  // Decimal numbers
  // ---------------------------------------------------------------------

  /** `str(n)` for a natural number: digits without a leading zero, except
      for 0 itself. */
  function NatToString(n: nat): (r: string)
    ensures |r| > 0 && IsDigits(r)
    ensures r[0] == '0' <==> n == 0
    ensures n < 10 <==> |r| == 1
    decreases n
  {
    if n < 10 then [('0' as int + n) as char]
    else NatToString(n / 10) + [('0' as int + n % 10) as char]
  }

  predicate IsDigits(s: string) {
    forall i :: 0 <= i < |s| ==> '0' <= s[i] <= '9'
  }

  /** `int(s)` for a string of decimal digits. */
  function ParseNat(s: string): nat
    requires IsDigits(s)
  {
    if s == [] then 0 else 10 * ParseNat(s[..|s| - 1]) + (s[|s| - 1] as int - '0' as int)
  }

  /** The decimal rendering can be read back. */
  lemma {:induction false} ParseNatToString(n: nat)
    ensures ParseNat(NatToString(n)) == n
    decreases n
  {
    if n >= 10 {
      var s := NatToString(n);
      ParseNatToString(n / 10);
      assert s[..|s| - 1] == NatToString(n / 10);
    }
  }

  /** `str(n)` for any integer: a minus sign exactly for negative n, then
      the decimal digits of |n| without a leading zero. */
  function IntToString(n: int): (r: string)
    ensures |r| > 0 && (r[0] == '-' <==> n < 0)
    ensures var d := if n < 0 then r[1..] else r;
      |d| > 0 && IsDigits(d) && ParseNat(d) == (if n < 0 then -n else n)
      && (d[0] == '0' <==> n == 0)
  {
    ParseNatToString(if n < 0 then -n else n);
    if n < 0 then
      var d := NatToString(-n);
      assert ("-" + d)[1..] == d;
      "-" + d
    else NatToString(n)
  }

  /** The name of the i-th field of a list, `f"{i}. {title}"`. */
  function FieldName(i: nat, title: string): (r: string)
    ensures |r| > |title| + 2 && r[|r| - |title| - 2..] == ". " + title
    ensures var d := r[..|r| - |title| - 2]; IsDigits(d) && ParseNat(d) == i
    ensures var d := r[..|r| - |title| - 2]; |d| > 0 && (d[0] == '0' <==> i == 0)
  {
    ParseNatToString(i);
    var d := NatToString(i);
    var r := d + ". " + title;
    assert r[..|r| - |title| - 2] == d;
    r
  }
}
