/**
 * The lexical grammar of liquid.php: delimiters, separators, the character
 * classes of the regular expressions, and hand-written scanners for the
 * quoted fragment and the tag-attribute syntax. Each scanner reproduces what
 * PCRE returns for the corresponding expression (leftmost match, alternatives
 * tried in order, greedy repetition).
 */
module Grammar {
  import opened Wrappers

  const TagStart: string := "{%"
  const TagEnd: string := "%}"
  const VariableStart: string := "{{"
  const VariableEnd: string := "}}"
  const FilterSeparator: char := '|'
  const ArgumentSeparator: char := ','
  const FilterArgumentSeparator: char := ':'
  const AttributeSeparator: char := '.'

  /** PCRE's \s: space, tab, newline, vertical tab, form feed, carriage return. */
  predicate IsSpace(c: char) {
    c == ' ' || c == '\t' || c == '\n' || c == '\r' || c == '\U{000B}' || c == '\U{000C}'
  }

  /** PCRE's \w outside any locale: [A-Za-z0-9_]. */
  predicate IsWordChar(c: char) {
    ('a' <= c <= 'z') || ('A' <= c <= 'Z') || ('0' <= c <= '9') || c == '_'
  }

  /** The characters allowed in a variable: [a-zA-Z_.-]. */
  predicate IsVariableChar(c: char) {
    ('a' <= c <= 'z') || ('A' <= c <= 'Z') || c == '_' || c == '.' || c == '-'
  }

  /** The bare-word alternative of the quoted fragment: [^\s,|]. */
  predicate IsFragmentChar(c: char) {
    !IsSpace(c) && c != ArgumentSeparator && c != FilterSeparator
  }

  predicate IsQuote(c: char) {
    c == '"' || c == '\''
  }

  predicate StartsWith(s: string, prefix: string) {
    |prefix| <= |s| && s[..|prefix|] == prefix
  }

  predicate EndsWith(s: string, suffix: string) {
    |suffix| <= |s| && s[|s| - |suffix|..] == suffix
  }

  /** The end of the longest run of characters satisfying f that starts at p. */
  function RunEnd(s: string, p: nat, f: char -> bool): (r: nat)
    requires p <= |s|
    ensures p <= r <= |s|
    ensures forall i | p <= i < r :: f(s[i])
    ensures r == |s| || !f(s[r])
    decreases |s| - p
  {
    if p < |s| && f(s[p]) then RunEnd(s, p + 1, f) else p
  }

  function SkipSpaces(s: string, p: nat): (r: nat)
    requires p <= |s|
    ensures p <= r <= |s|
    ensures forall i | p <= i < r :: IsSpace(s[i])
    ensures r == |s| || !IsSpace(s[r])
  {
    RunEnd(s, p, IsSpace)
  }

  /** The first index at or after from that holds c. */
  function IndexOf(s: string, from: nat, c: char): (r: Option<nat>)
    requires from <= |s|
    ensures r.Some? ==> from <= r.value < |s| && s[r.value] == c
    ensures r.Some? ==> forall i | from <= i < r.value :: s[i] != c
    ensures r.None? ==> forall i | from <= i < |s| :: s[i] != c
    decreases |s| - from
  {
    if from == |s| then None
    else if s[from] == c then Some(from)
    else IndexOf(s, from + 1, c)
  }

  /** The quoted alternatives "[^"]+" and '[^']+' anchored at p: the end of the literal, if it closes. */
  function QuotedEnd(s: string, p: nat): (r: Option<nat>)
    requires p < |s| && IsQuote(s[p])
    ensures r.Some? ==> p + 3 <= r.value <= |s| && s[r.value - 1] == s[p]
    ensures r.Some? ==> forall i | p < i < r.value - 1 :: s[i] != s[p]
  {
    match IndexOf(s, p + 1, s[p])
    case Some(j) => if j >= p + 2 then Some(j + 1) else None
    case None => None
  }

  /**
   * The quoted fragment "[^"]+"|'[^']+'|[^\s,|]+ anchored at p: the end of the
   * match. A quote that does not close (or closes at once) falls through to
   * the bare-word alternative, which accepts quote characters too.
   */
  function FragmentAt(s: string, p: nat): (r: Option<nat>)
    requires p <= |s|
    ensures r.Some? <==> p < |s| && IsFragmentChar(s[p])
    ensures r.Some? ==> p < r.value <= |s|
    ensures r.Some? ==>
      || (IsQuote(s[p]) && r.value >= p + 3 && s[r.value - 1] == s[p]
          && forall i | p < i < r.value - 1 :: s[i] != s[p])
      || (r.value == RunEnd(s, p, IsFragmentChar))
  {
    if p < |s| && IsQuote(s[p]) && QuotedEnd(s, p).Some? then QuotedEnd(s, p)
    else if p < |s| && IsFragmentChar(s[p]) then Some(RunEnd(s, p, IsFragmentChar))
    else None
  }

  /** The leftmost quoted fragment at or after from, as (start, end). */
  function FragmentSearch(s: string, from: nat): (r: Option<(nat, nat)>)
    requires from <= |s|
    ensures r.Some? ==> from <= r.value.0 < r.value.1 <= |s|
    ensures r.Some? ==> FragmentAt(s, r.value.0) == Some(r.value.1)
    ensures r.Some? ==> forall i | from <= i < r.value.0 :: !IsFragmentChar(s[i])
    ensures r.None? ==> forall i | from <= i < |s| :: !IsFragmentChar(s[i])
    decreases |s| - from
  {
    if from == |s| then None
    else if IsFragmentChar(s[from]) then Some((from, FragmentAt(s, from).value))
    else FragmentSearch(s, from + 1)
  }

  /** The text matched by the first quoted fragment of s: both `(QF)` and `\s*(QF)` capture it. */
  function FirstFragment(s: string): (r: Option<string>)
    ensures r.Some? <==> exists i | 0 <= i < |s| :: IsFragmentChar(s[i])
    ensures r.Some? ==> |r.value| > 0
  {
    match FragmentSearch(s, 0)
    case Some((b, e)) => Some(s[b..e])
    case None => None
  }

  /** The leftmost run of word characters, as `(\w+)` and `\s*(\w+)` capture it. */
  function FirstWord(s: string): (r: Option<string>)
    ensures r.Some? <==> exists i | 0 <= i < |s| :: IsWordChar(s[i])
    ensures r.Some? ==> |r.value| > 0 && forall i | 0 <= i < |r.value| :: IsWordChar(r.value[i])
  {
    match IndexWhere(s, 0, IsWordChar)
    case Some(q) => Some(s[q..RunEnd(s, q, IsWordChar)])
    case None => None
  }

  /** The first index at or after from whose character satisfies f. */
  function IndexWhere(s: string, from: nat, f: char -> bool): (r: Option<nat>)
    requires from <= |s|
    ensures r.Some? ==> from <= r.value < |s| && f(s[r.value])
    ensures r.Some? ==> forall i | from <= i < r.value :: !f(s[i])
    ensures r.None? ==> forall i | from <= i < |s| :: !f(s[i])
    decreases |s| - from
  {
    if from == |s| then None
    else if f(s[from]) then Some(from)
    else IndexWhere(s, from + 1, f)
  }

  /**
   * One tag attribute `(\w+)\s*\:\s*(QF)` anchored at p: the name, the raw
   * value and the end of the match.
   */
  function AttributeAt(s: string, p: nat): (r: Option<(string, string, nat)>)
    requires p <= |s|
    ensures r.Some? ==> p < r.value.2 <= |s|
    ensures r.Some? ==> |r.value.0| > 0 && |r.value.1| > 0
  {
    var w := RunEnd(s, p, IsWordChar);
    var c := SkipSpaces(s, w);
    if w == p || c == |s| || s[c] != FilterArgumentSeparator then None
    else
      var v := SkipSpaces(s, c + 1);
      match FragmentAt(s, v)
      case Some(e) => Some((s[p..w], s[v..e], e))
      case None => None
  }

  /** Every match of the tag-attribute expression, left to right, as preg_match_all finds them. */
  function AttributesFrom(s: string, from: nat): (r: seq<(string, string)>)
    requires from <= |s|
    decreases |s| - from
  {
    if from == |s| then []
    else match AttributeAt(s, from)
      case Some((name, value, e)) => [(name, value)] + AttributesFrom(s, e)
      case None => AttributesFrom(s, from + 1)
  }

  /** The value bound to key in an ordered association list of attributes, if any. */
  function AttributeValue(pairs: seq<(string, string)>, key: string): (r: Option<string>)
    ensures r.Some? <==> exists i | 0 <= i < |pairs| :: pairs[i].0 == key
  {
    if pairs == [] then None
    else if pairs[0].0 == key then Some(pairs[0].1)
    else
      var r := AttributeValue(pairs[1..], key);
      assert forall i | 1 <= i < |pairs| :: pairs[1..][i - 1] == pairs[i];
      r
  }

  /** No key occurs twice. */
  predicate UniqueKeys(pairs: seq<(string, string)>) {
    forall i, j | 0 <= i < j < |pairs| :: pairs[i].0 != pairs[j].0
  }

  /**
   * r is pairs after PHP's `$array[key] = value`: the keys stay unique, key
   * maps to value and every other key to what it mapped to; an existing key
   * keeps its position, a new key goes to the end.
   */
  ghost predicate Binds(pairs: seq<(string, string)>, key: string, value: string, r: seq<(string, string)>) {
    && UniqueKeys(r)
    && AttributeValue(r, key) == Some(value)
    && (forall k | k != key :: AttributeValue(r, k) == AttributeValue(pairs, k))
    && (AttributeValue(pairs, key).None? ==> r == pairs + [(key, value)])
    && (AttributeValue(pairs, key).Some? ==> |r| == |pairs| && forall i | 0 <= i < |r| :: r[i].0 == pairs[i].0)
  }

  /** PHP's `$array[key] = value` on an association list. */
  function Bind(pairs: seq<(string, string)>, key: string, value: string): (r: seq<(string, string)>)
    requires UniqueKeys(pairs)
    ensures Binds(pairs, key, value, r)
  {
    if pairs == [] then [(key, value)]
    else if pairs[0].0 == key then
      BindHere(pairs, key, value);
      [(key, value)] + pairs[1..]
    else
      var rest := Bind(pairs[1..], key, value);
      BindFurther(pairs, key, value, rest);
      [pairs[0]] + rest
  }

  lemma BindHere(pairs: seq<(string, string)>, key: string, value: string)
    requires UniqueKeys(pairs) && pairs != [] && pairs[0].0 == key
    ensures Binds(pairs, key, value, [(key, value)] + pairs[1..])
  {
    assert forall j | 0 <= j < |pairs| - 1 :: pairs[1..][j] == pairs[j + 1];
    ConsUnique((key, value), pairs[1..]);
    var r := [(key, value)] + pairs[1..];
    assert r[1..] == pairs[1..];
  }

  lemma BindFurther(pairs: seq<(string, string)>, key: string, value: string, rest: seq<(string, string)>)
    requires UniqueKeys(pairs) && pairs != [] && pairs[0].0 != key
    requires Binds(pairs[1..], key, value, rest)
    ensures Binds(pairs, key, value, [pairs[0]] + rest)
  {
    var r := [pairs[0]] + rest;
    assert r[1..] == rest;
    assert forall i | 1 <= i < |pairs| :: pairs[1..][i - 1] == pairs[i];
    assert forall j | 0 <= j < |rest| :: rest[j].0 != pairs[0].0 by {
      if AttributeValue(pairs[1..], key).None? {
        assert rest == pairs[1..] + [(key, value)];
      }
    }
    assert pairs == [pairs[0]] + pairs[1..];
    ConsUnique(pairs[0], rest);
    assert forall k :: AttributeValue(pairs, k) == (if pairs[0].0 == k then Some(pairs[0].1) else AttributeValue(pairs[1..], k));
    assert forall k :: AttributeValue(r, k) == (if pairs[0].0 == k then Some(pairs[0].1) else AttributeValue(rest, k));
  }

  lemma ConsUnique(p: (string, string), rest: seq<(string, string)>)
    requires UniqueKeys(rest)
    requires forall j | 0 <= j < |rest| :: rest[j].0 != p.0
    ensures UniqueKeys([p] + rest)
  {
    var r := [p] + rest;
    forall i, j | 0 <= i < j < |r|
      ensures r[i].0 != r[j].0
    {
      assert r[j] == rest[j - 1];
      if i > 0 {
        assert r[i] == rest[i - 1];
      }
    }
  }

  /** extract_attributes: the attributes bound in order of appearance, a repeated name taking its last value. */
  function AttributeList(matches: seq<(string, string)>): (r: seq<(string, string)>)
    ensures UniqueKeys(r)
    ensures forall k :: AttributeValue(r, k).Some? <==> exists i | 0 <= i < |matches| :: matches[i].0 == k
  {
    if matches == [] then []
    else
      var last := matches[|matches| - 1];
      var r := Bind(AttributeList(matches[..|matches| - 1]), last.0, last.1);
      assert forall i | 0 <= i < |matches| - 1 :: matches[..|matches| - 1][i] == matches[i];
      r
  }

  /** The attributes of a tag's markup. */
  function Attributes(markup: string): seq<(string, string)> {
    AttributeList(AttributesFrom(markup, 0))
  }

  /** The value of an attribute is the one written last for its name. */
  lemma {:induction false} LastAttributeWins(matches: seq<(string, string)>, i: nat)
    requires i < |matches|
    requires forall j | i < j < |matches| :: matches[j].0 != matches[i].0
    ensures AttributeValue(AttributeList(matches), matches[i].0) == Some(matches[i].1)
    decreases |matches|
  {
    var m := matches[..|matches| - 1];
    if i < |matches| - 1 {
      assert forall j | i < j < |m| :: m[j] == matches[j];
      LastAttributeWins(m, i);
    }
  }

  /** ASCII lower-casing, as strtolower and PHP's case-insensitive class names use it. */
  function ToLower(s: string): (r: string)
    ensures |r| == |s|
    ensures forall i | 0 <= i < |s| :: 'A' <= s[i] <= 'Z' ==> r[i] as int == s[i] as int + 32
    ensures forall i | 0 <= i < |s| :: !('A' <= s[i] <= 'Z') ==> r[i] == s[i]
  {
    seq(|s|, i requires 0 <= i < |s| => if 'A' <= s[i] <= 'Z' then (s[i] as int + 32) as char else s[i])
  }

  predicate HasNoCapital(s: string) {
    forall i | 0 <= i < |s| :: !('A' <= s[i] <= 'Z')
  }

  /** A name without ASCII capitals is its own lower case. */
  lemma LowerCaseUnchanged(s: string)
    requires HasNoCapital(s)
    ensures ToLower(s) == s
  {
  }

  /** Lower-casing twice is lower-casing once: its result has no capital left. */
  lemma ToLowerIdempotent(s: string)
    ensures HasNoCapital(ToLower(s))
    ensures ToLower(ToLower(s)) == ToLower(s)
  {
    LowerCaseUnchanged(ToLower(s));
  }

  /** explode(sep, s): the pieces between the separators, empty pieces included. */
  function Split(s: string, sep: char): (r: seq<string>)
    ensures |r| >= 1
    ensures forall i | 0 <= i < |r| :: sep !in r[i]
    decreases |s|
  {
    match IndexOf(s, 0, sep)
    case None => [s]
    case Some(k) => [s[..k]] + Split(s[k + 1..], sep)
  }

  /** The inverse of Split: the pieces joined back with the separator. */
  function Join(pieces: seq<string>, sep: char): string
    requires |pieces| >= 1
  {
    if |pieces| == 1 then pieces[0] else pieces[0] + [sep] + Join(pieces[1..], sep)
  }

  lemma {:induction false} JoinSplit(s: string, sep: char)
    ensures Join(Split(s, sep), sep) == s
    decreases |s|
  {
    match IndexOf(s, 0, sep)
    case None =>
      assert Split(s, sep) == [s];
    case Some(k) =>
      var rest := Split(s[k + 1..], sep);
      JoinSplit(s[k + 1..], sep);
      assert Split(s, sep) == [s[..k]] + rest;
      assert Join(Split(s, sep), sep) == s[..k] + [sep] + Join(rest, sep);
      assert s == s[..k] + [sep] + s[k + 1..];
  }

  function Concat(parts: seq<string>): string {
    if parts == [] then [] else parts[0] + Concat(parts[1..])
  }

  lemma {:induction false} ConcatAppend(a: seq<string>, b: seq<string>)
    ensures Concat(a + b) == Concat(a) + Concat(b)
  {
    if a != [] {
      assert (a + b)[0] == a[0];
      assert (a + b)[1..] == a[1..] + b;
      ConcatAppend(a[1..], b);
      calc {
        Concat(a + b);
        (a + b)[0] + Concat((a + b)[1..]);
        a[0] + (Concat(a[1..]) + Concat(b));
      }
    } else {
      assert a + b == b;
    }
  }

  /** RunEnd is pinned down by its contract: the run of f from p that stops at e ends at e. */
  lemma RunEndIs(s: string, p: nat, e: nat, f: char -> bool)
    requires p <= e <= |s|
    requires forall i | p <= i < e :: f(s[i])
    requires e == |s| || !f(s[e])
    ensures RunEnd(s, p, f) == e
  {
  }

  /** IndexOf is pinned down by its contract. */
  lemma IndexOfIs(s: string, from: nat, k: nat, c: char)
    requires from <= k < |s| && s[k] == c
    requires forall i | from <= i < k :: s[i] != c
    ensures IndexOf(s, from, c) == Some(k)
  {
  }

  lemma IndexOfAbsent(s: string, from: nat, c: char)
    requires from <= |s|
    requires forall i | from <= i < |s| :: s[i] != c
    ensures IndexOf(s, from, c).None?
  {
  }

  /** A string without the separator explodes into itself alone. */
  lemma SplitNone(s: string, sep: char)
    requires sep !in s
    ensures Split(s, sep) == [s]
  {
  }

  /** The piece before the first separator comes first, then the pieces of the rest. */
  lemma SplitCons(a: string, sep: char, rest: string)
    requires sep !in a
    ensures Split(a + [sep] + rest, sep) == [a] + Split(rest, sep)
  {
    var s := a + [sep] + rest;
    IndexOfIs(s, 0, |a|, sep);
    assert s[..|a|] == a;
    assert s[|a| + 1..] == rest;
  }

  /** s without its leading and trailing whitespace. */
  function TrimSpaces(s: string): (r: string)
    ensures |r| <= |s|
    ensures r == [] || (!IsSpace(r[0]) && !IsSpace(r[|r| - 1]))
    decreases |s|
  {
    if s != [] && IsSpace(s[0]) then TrimSpaces(s[1..])
    else if s != [] && IsSpace(s[|s| - 1]) then TrimSpaces(s[..|s| - 1])
    else s
  }

  /** A run that starts inside s is the same run inside w + s, shifted by |w|. */
  lemma {:induction false} RunEndShift(w: string, s: string, k: nat, f: char -> bool)
    requires k <= |s|
    ensures RunEnd(w + s, |w| + k, f) == |w| + RunEnd(s, k, f)
    decreases |s| - k
  {
    if k < |s| {
      assert (w + s)[|w| + k] == s[k];
      if f(s[k]) {
        RunEndShift(w, s, k + 1, f);
      }
    }
  }

  /** A run in s + w stops inside s where it stops in s, and otherwise goes on into w. */
  lemma {:induction false} RunEndConcat(s: string, w: string, k: nat, f: char -> bool)
    requires k <= |s|
    ensures RunEnd(s + w, k, f) == if RunEnd(s, k, f) < |s| then RunEnd(s, k, f) else |s| + RunEnd(w, 0, f)
    decreases |s| - k
  {
    if k < |s| {
      assert (s + w)[k] == s[k];
      if f(s[k]) {
        RunEndConcat(s, w, k + 1, f);
      }
    } else {
      RunEndShift(s, w, 0, f);
    }
  }

  /** The first match of f inside s is the first one inside w + s, shifted by |w|. */
  lemma {:induction false} IndexWhereShift(w: string, s: string, k: nat, f: char -> bool)
    requires k <= |s|
    ensures IndexWhere(s, k, f).None? ==> IndexWhere(w + s, |w| + k, f).None?
    ensures IndexWhere(s, k, f).Some? ==> IndexWhere(w + s, |w| + k, f) == Some(|w| + IndexWhere(s, k, f).value)
    decreases |s| - k
  {
    if k < |s| {
      assert (w + s)[|w| + k] == s[k];
      if !f(s[k]) {
        IndexWhereShift(w, s, k + 1, f);
      }
    }
  }

  /** Characters after s that f never holds of do not change the first match in s. */
  lemma {:induction false} IndexWhereExtend(s: string, w: string, k: nat, f: char -> bool)
    requires k <= |s|
    requires forall i | 0 <= i < |w| :: !f(w[i])
    ensures IndexWhere(s + w, k, f) == IndexWhere(s, k, f)
    decreases |s| - k
  {
    if k < |s| {
      assert (s + w)[k] == s[k];
      if !f(s[k]) {
        IndexWhereExtend(s, w, k + 1, f);
      }
    } else {
      assert forall i | |s| <= i < |s + w| :: (s + w)[i] == w[i - |s|];
    }
  }

  /** Characters other than c after s do not change the first c in s. */
  lemma {:induction false} IndexOfExtend(s: string, w: string, k: nat, c: char)
    requires k <= |s|
    requires c !in w
    ensures IndexOf(s + w, k, c) == IndexOf(s, k, c)
    decreases |s| - k
  {
    if k < |s| {
      assert (s + w)[k] == s[k];
      if s[k] != c {
        IndexOfExtend(s, w, k + 1, c);
      }
    } else {
      assert forall i | |s| <= i < |s + w| :: (s + w)[i] == w[i - |s|];
    }
  }

  /** Whitespace after s does not change a quoted fragment starting in s. */
  lemma FragmentAtExtend(s: string, w: string, k: nat)
    requires k <= |s|
    requires forall i | 0 <= i < |w| :: IsSpace(w[i])
    ensures FragmentAt(s + w, k) == FragmentAt(s, k)
  {
    if k < |s| {
      assert (s + w)[k] == s[k];
      assert w == [] || !IsFragmentChar(w[0]);
      if IsQuote(s[k]) {
        assert s[k] !in w;
        IndexOfExtend(s, w, k + 1, s[k]);
      }
      RunEndConcat(s, w, k, IsFragmentChar);
    } else if w != [] {
      assert (s + w)[k] == w[0];
    }
  }
}
