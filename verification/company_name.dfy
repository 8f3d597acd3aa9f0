/** The short company name of `CompanyFundValueDF._add_comp` (pool/df.py): delete
    every parenthesised remark, trim the whitespace, and cut off the first legal-form
    suffix of an ordered list. */
module CompanyName {

  /** Python's `str.isspace` on one character: the Unicode whitespace characters. */
  predicate IsSpace(c: char)
  {
    c == ' ' || '\t' <= c <= '\r' || '\U{1C}' <= c <= '\U{1F}' || c == '\U{85}' || c == '\U{A0}'
    || c == '\U{1680}' || '\U{2000}' <= c <= '\U{200A}' || c == '\U{2028}' || c == '\U{2029}'
    || c == '\U{202F}' || c == '\U{205F}' || c == '\U{3000}'
  }

  /** No whitespace at either end. */
  predicate IsTrimmed(s: string)
  {
    |s| == 0 || (!IsSpace(s[0]) && !IsSpace(s[|s| - 1]))
  }

  /** The number of whitespace characters `s` starts with. */
  function Lead(s: string): (n: nat)
    ensures n <= |s|
    ensures forall i :: 0 <= i < n ==> IsSpace(s[i])
    ensures n < |s| ==> !IsSpace(s[n])
  {
    if |s| == 0 || !IsSpace(s[0]) then 0 else 1 + Lead(s[1..])
  }

  /** The number of whitespace characters `s` ends with. */
  function Trail(s: string): (n: nat)
    ensures n <= |s|
    ensures forall i :: |s| - n <= i < |s| ==> IsSpace(s[i])
    ensures n < |s| ==> !IsSpace(s[|s| - n - 1])
  {
    if |s| == 0 || !IsSpace(s[|s| - 1]) then 0 else 1 + Trail(s[..|s| - 1])
  }

  /** Python's `s.strip()`: `s` without its leading and trailing whitespace. */
  function Strip(s: string): (r: string)
    ensures IsTrimmed(r)
  {
    var rest := s[Lead(s)..];
    rest[..|rest| - Trail(rest)]
  }

  /** What `Strip` keeps is one piece of `s`, starting after the leading whitespace. */
  lemma StripKeepsPiece(s: string)
    ensures Lead(s) + |Strip(s)| <= |s|
    ensures Strip(s) == s[Lead(s)..Lead(s) + |Strip(s)|]
  {
    var rest := s[Lead(s)..];
    assert Strip(s) == rest[..|rest| - Trail(rest)];
  }

  /** What `Strip` removes on either side of that piece is whitespace. */
  lemma StripCutsSpace(s: string)
    ensures forall k :: 0 <= k < Lead(s) ==> IsSpace(s[k])
    ensures forall k :: Lead(s) + |Strip(s)| <= k < |s| ==> IsSpace(s[k])
  {
    var lead := Lead(s);
    var rest := s[lead..];
    assert |Strip(s)| == |rest| - Trail(rest);
    forall k | lead + |Strip(s)| <= k < |s|
      ensures IsSpace(s[k])
    {
      assert s[k] == rest[k - lead];
    }
  }

  /** Trimming a trimmed string changes nothing. */
  lemma StripTrimmed(s: string)
    requires IsTrimmed(s)
    ensures Strip(s) == s
  {
  }

  // ---------------------------------------------------------------------------
  // `re.sub(r'\(.*?\)', '', name)`.

  /** The position of the first `)` at or after `i` that no newline precedes (`.`
      does not match a newline); `-1` when there is none. */
  function Close(s: string, i: nat): (k: int)
    requires i <= |s|
    ensures k == -1 || (i <= k < |s| && s[k] == ')')
    ensures k != -1 ==> forall m :: i <= m < k ==> s[m] != ')' && s[m] != '\n'
    ensures k == -1 ==> forall m :: i <= m < |s| && s[m] == ')' ==> exists j :: i <= j < m && s[j] == '\n'
    decreases |s| - i
  {
    if i == |s| || s[i] == '\n' then -1
    else if s[i] == ')' then i
    else Close(s, i + 1)
  }

  /** The regular-expression substitution: scanning left to right, each `(` that a
      `)` follows on the same line is deleted up to and including the nearest such
      `)`; every other character is kept. */
  function StripParens(s: string): (r: string)
    ensures |r| <= |s|
    ensures forall c :: c in r ==> c in s
    decreases |s|
  {
    if |s| == 0 then ""
    else if s[0] == '(' && Close(s, 1) != -1 then
      StripParens(s[Close(s, 1) + 1..])
    else
      [s[0]] + StripParens(s[1..])
  }

  /** Without an ASCII `(` the substitution changes nothing; full-width brackets
      such as `（` are left alone. */
  lemma {:induction false} NoParenUnchanged(s: string)
    requires '(' !in s
    ensures StripParens(s) == s
  {
    if |s| > 0 {
      assert '(' !in s[1..] by {
        assert forall c :: c in s[1..] ==> c in s;
      }
      NoParenUnchanged(s[1..]);
      assert s == [s[0]] + s[1..];
    }
  }

  predicate NoNewline(s: string)
  {
    forall i :: 0 <= i < |s| ==> s[i] != '\n'
  }

  /** No `(` is followed anywhere later by a `)`. */
  predicate NoGroupLeft(r: string)
  {
    forall i, j :: 0 <= i < j < |r| && r[i] == '(' ==> r[j] != ')'
  }

  /** On a single line the substitution leaves no `(` that a `)` follows. */
  lemma {:induction false} StripParensLeavesNoGroup(s: string)
    requires NoNewline(s)
    ensures NoGroupLeft(StripParens(s))
    decreases |s|
  {
    if |s| > 0 {
      if s[0] == '(' && Close(s, 1) != -1 {
        StripParensLeavesNoGroup(s[Close(s, 1) + 1..]);
      } else {
        var rest := StripParens(s[1..]);
        StripParensLeavesNoGroup(s[1..]);
        var r := [s[0]] + rest;
        if s[0] == '(' {
          assert forall c :: c in rest ==> c in s[1..];
          assert ')' !in s[1..];
          assert ')' !in rest;
        }
        forall i, j | 0 <= i < j < |r| && r[i] == '('
          ensures r[j] != ')'
        {
          assert r[j] == rest[j - 1];
          if i > 0 {
            assert r[i] == rest[i - 1];
          }
        }
      }
    }
  }

  // ---------------------------------------------------------------------------
  // `remove_suffix(text, suffix_list)`.

  /** The legal-form suffixes `_add_comp` knows, in the order they are tried. */
  const Suffixes: seq<string> := [
    "基金管理股份有限公司",
    "基金管理有限责任公司",
    "基金管理有限公司",
    "证券资产管理有限公司",
    "资产管理有限公司",
    "证券股份有限公司",
    "证券有限责任公司",
    "证券有限公司",
    "股份有限公司"
  ]

  /** Python's `text.endswith(x)`. */
  predicate EndsWith(text: string, x: string)
  {
    |x| <= |text| && text[|text| - |x|..] == x
  }

  /** Python's `text[:-n]`: all but the last `n` characters, and for `n == 0` (as
      `-0 == 0`) the empty string. */
  function DropLast(text: string, n: nat): string
    requires n <= |text|
  {
    if n == 0 then "" else text[..|text| - n]
  }

  /** `remove_suffix`: the first suffix of the list that `text` ends with is cut off
      and the rest trimmed; without a match `text` comes back as it is. */
  function RemoveSuffix(text: string, suffixes: seq<string>): (r: string)
    ensures r == text || IsTrimmed(r)
  {
    if |suffixes| == 0 then text
    else if EndsWith(text, suffixes[0]) then Strip(DropLast(text, |suffixes[0]|))
    else RemoveSuffix(text, suffixes[1..])
  }

  /** Without a matching suffix the text is unchanged. */
  lemma {:induction false} RemoveSuffixNoMatch(text: string, suffixes: seq<string>)
    requires forall k :: 0 <= k < |suffixes| ==> !EndsWith(text, suffixes[k])
    ensures RemoveSuffix(text, suffixes) == text
  {
    if |suffixes| > 0 {
      RemoveSuffixNoMatch(text, suffixes[1..]);
    }
  }

  /** With `suffixes[k]` the first match, `text` is some `p` followed by it, and the
      result is `p` trimmed. */
  lemma {:induction false} RemoveSuffixFirstMatch(text: string, suffixes: seq<string>, k: nat)
    requires k < |suffixes| && EndsWith(text, suffixes[k]) && |suffixes[k]| > 0
    requires forall m :: 0 <= m < k ==> !EndsWith(text, suffixes[m])
    ensures text == text[..|text| - |suffixes[k]|] + suffixes[k]
    ensures RemoveSuffix(text, suffixes) == Strip(text[..|text| - |suffixes[k]|])
  {
    if k > 0 {
      RemoveSuffixFirstMatch(text, suffixes[1..], k - 1);
    }
  }

  /** A trimmed text stays trimmed. */
  lemma {:induction false} RemoveSuffixTrimmed(text: string, suffixes: seq<string>)
    requires IsTrimmed(text)
    ensures IsTrimmed(RemoveSuffix(text, suffixes))
  {
    if |suffixes| > 0 && !EndsWith(text, suffixes[0]) {
      RemoveSuffixTrimmed(text, suffixes[1..]);
    }
  }

  /** Whenever one listed suffix ends another, the longer one is listed first. */
  lemma SuffixesLongestFirst()
    ensures forall i, j :: 0 <= i < |Suffixes| && 0 <= j < |Suffixes| && i != j && EndsWith(Suffixes[j], Suffixes[i]) ==> j < i
  {
  }

  /** Hence the suffix removed is the longest listed suffix the text ends with. */
  lemma LongestMatchWins(text: string, k: nat, j: nat)
    requires k < |Suffixes| && EndsWith(text, Suffixes[k])
    requires forall m :: 0 <= m < k ==> !EndsWith(text, Suffixes[m])
    requires j < |Suffixes| && EndsWith(text, Suffixes[j])
    ensures |Suffixes[j]| <= |Suffixes[k]|
  {
    if |Suffixes[j]| > |Suffixes[k]| {
      var x, y := Suffixes[k], Suffixes[j];
      assert forall m :: 0 <= m < |x| ==> y[|y| - |x| + m] == text[|text| - |x| + m] == x[m];
      assert EndsWith(y, x);
      SuffixesLongestFirst();
    }
  }

  /** The short name of one company: remarks removed, trimmed, legal form cut off. */
  function ShortName(name: string): (r: string)
    ensures IsTrimmed(r)
  {
    var t := Strip(StripParens(name));
    RemoveSuffixTrimmed(t, Suffixes);
    RemoveSuffix(t, Suffixes)
  }

  /** The COMP column: one short name per company name, in order. */
  function ShortNames(names: seq<string>): (r: seq<string>)
    ensures |r| == |names|
    ensures forall i :: 0 <= i < |names| ==> r[i] == ShortName(names[i])
  {
    seq(|names|, i requires 0 <= i < |names| => ShortName(names[i]))
  }

  /** With no `(` and no surrounding whitespace, only the suffix list acts. */
  lemma ShortNamePlain(name: string)
    requires '(' !in name && IsTrimmed(name)
    ensures ShortName(name) == RemoveSuffix(name, Suffixes)
  {
    NoParenUnchanged(name);
    StripTrimmed(name);
  }

  lemma NanfangSuffix(name: string)
    requires name == "南方基金管理股份有限公司"
    ensures RemoveSuffix(name, Suffixes) == "南方"
  {
    assert name[2..] == Suffixes[0];
    RemoveSuffixFirstMatch(name, Suffixes, 0);
    assert name[..2] == "南方";
    StripTrimmed("南方");
  }

  /** The longer legal form is cut off whole. */
  lemma ShortNameExample()
    ensures ShortName("南方基金管理股份有限公司") == "南方"
  {
    ShortNamePlain("南方基金管理股份有限公司");
    NanfangSuffix("南方基金管理股份有限公司");
  }

  /** Text before the first `(` is kept as it is. */
  lemma {:induction false} KeepPrefix(p: string, q: string)
    requires '(' !in p
    ensures StripParens(p + q) == p + StripParens(q)
  {
    if |p| > 0 {
      assert (p + q)[1..] == p[1..] + q;
      assert '(' !in p[1..] by {
        assert forall c :: c in p[1..] ==> c in p;
      }
      KeepPrefix(p[1..], q);
      assert p[0] in p;
      var s := p + q;
      assert s[0] == p[0] && s[0] != '(';
      assert p == [p[0]] + p[1..];
    } else {
      assert p + q == q;
    }
  }

  lemma RemarkRemoved(name: string)
    requires name == "摩根士丹利基金管理(中国)有限公司"
    ensures StripParens(name) == "摩根士丹利基金管理有限公司"
  {
    var t := name[9..];
    assert Close(t, 3) == 3;
    assert Close(t, 1) == 3;
    assert t[4..] == "有限公司";
    NoParenUnchanged(t[4..]);
    assert name == "摩根士丹利基金管理" + t;
    KeepPrefix("摩根士丹利基金管理", t);
  }

  lemma MorganMisses(name: string)
    requires name == "摩根士丹利基金管理有限公司"
    ensures !EndsWith(name, Suffixes[0]) && !EndsWith(name, Suffixes[1])
  {
    assert name[3..][0] != Suffixes[0][0] && name[3..][0] != Suffixes[1][0];
  }

  lemma MorganHit(name: string)
    requires name == "摩根士丹利基金管理有限公司"
    ensures EndsWith(name, Suffixes[2])
    ensures Strip(DropLast(name, |Suffixes[2]|)) == "摩根士丹利"
  {
    assert name[5..] == Suffixes[2];
    assert name[..5] == "摩根士丹利";
    StripTrimmed("摩根士丹利");
  }

  lemma MorganSuffix(name: string)
    requires name == "摩根士丹利基金管理有限公司"
    ensures RemoveSuffix(name, Suffixes) == "摩根士丹利"
  {
    MorganMisses(name);
    MorganHit(name);
    var rest := Suffixes[1..];
    assert rest[0] == Suffixes[1] && rest[1..][0] == Suffixes[2];
    assert RemoveSuffix(name, Suffixes) == RemoveSuffix(name, rest);
    assert RemoveSuffix(name, rest) == RemoveSuffix(name, rest[1..]);
  }

  /** A parenthesised remark inside the name goes before the suffix is matched. */
  lemma ShortNameRemarkExample()
    ensures ShortName("摩根士丹利基金管理(中国)有限公司") == "摩根士丹利"
  {
    RemarkRemoved("摩根士丹利基金管理(中国)有限公司");
    StripTrimmed("摩根士丹利基金管理有限公司");
    MorganSuffix("摩根士丹利基金管理有限公司");
  }
}
