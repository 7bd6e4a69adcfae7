/** replc: the brackets of the two outermost nesting levels become braces. */
module BracketRewriter {

  /** One pass from nesting depth d, rewriting the brackets of levels up to t.  An
      opening bracket's level is the depth after it, a closing one's the depth
      before it. */
  function Rewrite(s: string, d: int, t: int): (r: string)
    ensures |r| == |s|
  {
    if s == [] then []
    else if s[0] == '[' then [if d + 1 <= t then '{' else '['] + Rewrite(s[1..], d + 1, t)
    else if s[0] == ']' then [if d <= t then '}' else ']'] + Rewrite(s[1..], d - 1, t)
    else [s[0]] + Rewrite(s[1..], d, t)
  }

  /** Opening minus closing brackets. */
  function Balance(s: string): int {
    if s == [] then 0
    else Balance(s[..|s| - 1]) + (if s[|s| - 1] == '[' then 1 else if s[|s| - 1] == ']' then -1 else 0)
  }

  predicate IsBracket(c: char) {
    c == '[' || c == ']'
  }

  function Brace(c: char): char {
    if c == '[' then '{' else if c == ']' then '}' else c
  }

  function Unbrace(c: char): char {
    if c == '{' then '[' else if c == '}' then ']' else c
  }

  /** The nesting level of the bracket at i. */
  function Level(s: string, i: int): int
    requires 0 <= i < |s|
  {
    if s[i] == '[' then Balance(s[..i]) + 1 else Balance(s[..i])
  }

  // ------------------------------------------------------------------ the C function

  lemma {:induction false} RewriteSnoc(s: string, c: char, d: int, t: int)
    ensures Rewrite(s + [c], d, t) == Rewrite(s, d, t) + Rewrite([c], d + Balance(s), t)
    decreases |s|
  {
    if s == [] {
      assert s + [c] == [c];
    } else {
      RewriteSnoc(s[1..], c, if s[0] == '[' then d + 1 else if s[0] == ']' then d - 1 else d, t);
      assert (s + [c])[1..] == s[1..] + [c];
      BalanceCons(s);
    }
  }

  lemma {:induction false} BalanceCons(s: string)
    requires s != []
    ensures Balance(s) == Balance(s[..1]) + Balance(s[1..])
    decreases |s|
  {
    if |s| == 1 {
      assert s[..1] == s;
    } else {
      var front := s[..|s| - 1];
      BalanceCons(front);
      assert front[..1] == s[..1] && s[1..][..|s| - 2] == front[1..];
    }
  }

  /** The loop over the buffer, which ends at the terminating NUL.  The returned
      depth is nonzero exactly when the function warns. */
  method Replc(buf: array<char>) returns (depth: int)
    requires buf.Length > 0 && buf[buf.Length - 1] == '\0'
    requires forall i :: 0 <= i < buf.Length - 1 ==> buf[i] != '\0'
    modifies buf
    ensures var text := old(buf[..buf.Length - 1]);
            buf[..buf.Length - 1] == Rewrite(text, 0, 2) && depth == Balance(text)
    ensures buf[buf.Length - 1] == '\0'
  {
    ghost var text := buf[..buf.Length - 1];
    var ch := 0;
    depth := 0;
    while buf[ch] != '\0'
      invariant 0 <= ch < buf.Length
      invariant buf[..ch] == Rewrite(text[..ch], 0, 2) && depth == Balance(text[..ch])
      invariant buf[ch..] == old(buf[..])[ch..]
      decreases buf.Length - ch
    {
      assert buf[ch] == old(buf[..])[ch] == text[ch];
      assert text[..ch + 1] == text[..ch] + [text[ch]] && text[..ch + 1][..ch] == text[..ch];
      RewriteSnoc(text[..ch], text[ch], 0, 2);
      ghost var done := buf[..ch];
      if buf[ch] == '[' {
        depth := depth + 1;
        if depth <= 2 {
          buf[ch] := '{';
        }
      } else if buf[ch] == ']' {
        if depth <= 2 {
          buf[ch] := '}';
        }
        depth := depth - 1;
      }
      assert buf[..ch + 1] == done + [buf[ch]];
      ch := ch + 1;
    }
    assert text[..|text|] == text;
  }

  /** k applications to the same text. */
  function Apply(s: string, k: nat): string {
    if k == 0 then s else Rewrite(Apply(s, k - 1), 0, 2)
  }

  // ------------------------------------------------------------------------ theorems

  /** Position by position, for any text: exactly the brackets of level at most t
      change, each into its brace. */
  lemma {:induction false} RewriteAt(s: string, t: int, i: int)
    requires 0 <= i < |s|
    ensures Rewrite(s, 0, t)[i] == if IsBracket(s[i]) && Level(s, i) <= t then Brace(s[i]) else s[i]
    decreases |s|
  {
    var front, c := s[..|s| - 1], s[|s| - 1];
    assert front + [c] == s;
    RewriteSnoc(front, c, 0, t);
    if i < |front| {
      RewriteAt(front, t, i);
      assert front[..i] == s[..i];
    }
  }

  /** A second pass counts only the brackets the first one left. */
  lemma {:induction false} RewriteTwice(s: string, d: int, t: nat, u: nat)
    ensures Rewrite(Rewrite(s, d, t), if d > t then d - t else 0, u) == Rewrite(s, d, t + u)
    decreases |s|
  {
    if s != [] {
      var d' := if s[0] == '[' then d + 1 else if s[0] == ']' then d - 1 else d;
      RewriteTwice(s[1..], d', t, u);
      assert Rewrite(s, d, t)[1..] == Rewrite(s[1..], d', t);
    }
  }

  /** k applications rewrite exactly the brackets of level at most 2k, whether or
      not the text is balanced. */
  lemma {:induction false} ApplyRewritesDeeper(s: string, k: nat)
    requires k >= 1
    ensures Apply(s, k) == Rewrite(s, 0, 2 * k)
    decreases k
  {
    if k == 1 {
      assert Apply(s, 1) == Rewrite(Apply(s, 0), 0, 2);
    } else {
      ApplyRewritesDeeper(s, k - 1);
      RewriteTwice(s, 0, 2 * (k - 1), 2);
    }
  }

  function Restore(s: string): string {
    seq(|s|, i requires 0 <= i < |s| => Unbrace(s[i]))
  }

  /** Mapping braces back recovers the input if and only if it had none. */
  lemma RestoreRecovers(s: string, t: int)
    ensures Restore(Rewrite(s, 0, t)) == s <==> '{' !in s && '}' !in s
  {
    forall i | 0 <= i < |s|
      ensures Restore(Rewrite(s, 0, t))[i] == Unbrace(s[i])
    {
      RewriteAt(s, t, i);
    }
    if '{' !in s && '}' !in s {
      assert forall i :: 0 <= i < |s| ==> Unbrace(s[i]) == s[i];
    } else {
      var i :| 0 <= i < |s| && (s[i] == '{' || s[i] == '}');
      assert Restore(Rewrite(s, 0, t))[i] != s[i];
    }
  }

  // ------------------------------------------------------------------- balanced texts

  /** A balanced text as a tree. */
  datatype Text = End | Plain(c: char, rest: Text) | Nested(inner: Text, rest: Text)

  predicate BracketFree(t: Text) {
    match t
    case End => true
    case Plain(c, rest) => !IsBracket(c) && BracketFree(rest)
    case Nested(inner, rest) => BracketFree(inner) && BracketFree(rest)
  }

  /** The text with its n outermost levels in braces, the others in brackets. */
  function Show(t: Text, n: nat): string {
    match t
    case End => ""
    case Plain(c, rest) => [c] + Show(rest, n)
    case Nested(inner, rest) =>
      if n == 0 then "[" + Show(inner, 0) + "]" + Show(rest, 0)
      else "{" + Show(inner, n - 1) + "}" + Show(rest, n)
  }

  lemma RewriteBracket(c: char, rest: string, d: int, u: int)
    requires IsBracket(c)
    ensures Rewrite([c] + rest, d, u)
         == if c == '[' then [if d + 1 <= u then '{' else '['] + Rewrite(rest, d + 1, u)
            else [if d <= u then '}' else ']'] + Rewrite(rest, d - 1, u)
  {
    assert ([c] + rest)[1..] == rest;
  }

  lemma Regroup(open: string, a: string, close: string, b: string, rest: string)
    ensures open + (a + (close + (b + rest))) == (open + a + close + b) + rest
  {
  }

  lemma {:induction false} RewriteShown(t: Text, rest: string, d: nat, u: nat)
    requires BracketFree(t)
    ensures Rewrite(Show(t, 0) + rest, d, u) == Show(t, if u > d then u - d else 0) + Rewrite(rest, d, u)
    decreases t, 1
  {
    match t
    case End =>
      assert Show(t, 0) + rest == rest;
    case Plain(c, more) =>
      RewriteShown(more, rest, d, u);
      assert (Show(t, 0) + rest)[1..] == Show(more, 0) + rest;
    case Nested(inner, more) =>
      RewriteNested(inner, more, rest, d, u);
      Regroup("[", Show(inner, 0), "]", Show(more, 0), rest);
  }

  lemma {:induction false} RewriteNested(inner: Text, more: Text, rest: string, d: nat, u: nat)
    requires BracketFree(inner) && BracketFree(more)
    ensures Rewrite("[" + (Show(inner, 0) + ("]" + (Show(more, 0) + rest))), d, u)
         == Show(Nested(inner, more), if u > d then u - d else 0) + Rewrite(rest, d, u)
    decreases Nested(inner, more), 0
  {
    var n, m := if u > d then u - d else 0, if u > d + 1 then u - (d + 1) else 0;
    var after := Show(more, 0) + rest;
    RewriteBracket('[', Show(inner, 0) + ("]" + after), d, u);
    RewriteShown(inner, "]" + after, d + 1, u);
    RewriteBracket(']', after, d + 1, u);
    RewriteShown(more, rest, d, u);
    var open, close := if d + 1 <= u then "{" else "[", if d + 1 <= u then "}" else "]";
    Regroup(open, Show(inner, m), close, Show(more, n), Rewrite(rest, d, u));
  }

  /** On a balanced text k applications put exactly the 2k outermost levels in
      braces, opening and closing partners alike, and there is no warning. */
  lemma BalancedTextRewritten(t: Text, k: nat)
    requires BracketFree(t) && k >= 1
    ensures Apply(Show(t, 0), k) == Show(t, 2 * k)
    ensures Balance(Show(t, 0)) == 0
  {
    ApplyRewritesDeeper(Show(t, 0), k);
    RewriteShown(t, "", 0, 2 * k);
    assert Show(t, 0) + "" == Show(t, 0) && Show(t, 2 * k) + "" == Show(t, 2 * k);
    BalanceShown(t);
  }

  lemma {:induction false} BalancePlus(a: string, b: string)
    ensures Balance(a + b) == Balance(a) + Balance(b)
    decreases |b|
  {
    if b == [] {
      assert a + b == a;
    } else {
      BalancePlus(a, b[..|b| - 1]);
      assert (a + b)[..|a + b| - 1] == a + b[..|b| - 1];
    }
  }

  lemma {:induction false} BalanceShown(t: Text)
    requires BracketFree(t)
    ensures Balance(Show(t, 0)) == 0
    decreases t
  {
    match t
    case End =>
    case Plain(c, rest) =>
      BalanceShown(rest);
      BalancePlus([c], Show(rest, 0));
    case Nested(inner, rest) =>
      BalanceShown(inner);
      BalanceShown(rest);
      BalancePlus("[", Show(inner, 0));
      BalancePlus("[" + Show(inner, 0), "]");
      BalancePlus("[" + Show(inner, 0) + "]", Show(rest, 0));
  }

  /** The usual meaning of a balanced text. */
  predicate WellNested(s: string) {
    Balance(s) == 0 && forall i :: 0 <= i <= |s| ==> Balance(s[..i]) >= 0
  }

  lemma BalanceBetween(s: string, i: nat, j: nat)
    requires i <= j <= |s|
    ensures Balance(s[i..j]) == Balance(s[..j]) - Balance(s[..i])
  {
    BalancePlus(s[..i], s[i..j]);
    assert s[..i] + s[i..j] == s[..j];
  }

  lemma PartNested(s: string, i: nat, j: nat)
    requires i <= j <= |s| && Balance(s[..i]) == Balance(s[..j])
    requires forall k :: i <= k <= j ==> Balance(s[..k]) >= Balance(s[..i])
    ensures WellNested(s[i..j])
  {
    BalanceBetween(s, i, j);
    forall k | 0 <= k <= j - i ensures Balance(s[i..j][..k]) >= 0 {
      BalanceBetween(s, i, i + k);
      assert s[i..j][..k] == s[i..i + k];
    }
  }

  lemma BalanceOne(s: string, i: nat)
    requires i < |s|
    ensures Balance(s[..i + 1]) == Balance(s[..i]) + if s[i] == '[' then 1 else if s[i] == ']' then -1 else 0
  {
    assert s[..i + 1][..i] == s[..i];
  }

  /** Where the bracket that opens the text is closed. */
  lemma Partner(s: string) returns (j: nat)
    requires WellNested(s) && s != [] && s[0] == '['
    ensures 1 <= j < |s| && s[j] == ']' && Balance(s[..j]) == 1 && Balance(s[..j + 1]) == 0
    ensures forall k :: 1 <= k <= j ==> Balance(s[..k]) >= 1
  {
    BalanceOne(s, 0);
    j := 1;
    assert s[..|s|] == s;
    while Balance(s[..j + 1]) != 0
      invariant 1 <= j < |s|
      invariant forall k :: 1 <= k <= j ==> Balance(s[..k]) >= 1
      decreases |s| - j
    {
      assert Balance(s[..j + 1]) >= 0;
      j := j + 1;
    }
    BalanceOne(s, j);
  }

  lemma CutAt(s: string, j: nat)
    requires 1 <= j < |s| && s[0] == '[' && s[j] == ']'
    ensures s == "[" + s[1..j] + "]" + s[j + 1..|s|]
  {
  }

  /** Every balanced text is a tree shown. */
  lemma {:induction false} ReadTree(s: string) returns (t: Text)
    requires WellNested(s)
    ensures BracketFree(t) && Show(t, 0) == s
    decreases |s|
  {
    if s == [] {
      return End;
    }
    assert s[..|s|] == s && s[1..|s|] == s[1..];
    BalanceOne(s, 0);
    if s[0] == '[' {
      var j := Partner(s);
      PartNested(s, 1, j);
      PartNested(s, j + 1, |s|);
      var inner := ReadTree(s[1..j]);
      var rest := ReadTree(s[j + 1..|s|]);
      t := Nested(inner, rest);
      CutAt(s, j);
    } else {
      PartNested(s, 1, |s|);
      var rest := ReadTree(s[1..]);
      t := Plain(s[0], rest);
    }
  }

  lemma {:induction false} ShownNonnegative(t: Text, i: nat)
    requires BracketFree(t) && i <= |Show(t, 0)|
    ensures Balance(Show(t, 0)[..i]) >= 0
    decreases t
  {
    match t
    case End =>
    case Plain(c, rest) =>
      if i > 0 {
        ShownNonnegative(rest, i - 1);
        BalancePlus([c], Show(rest, 0)[..i - 1]);
        assert Show(t, 0)[..i] == [c] + Show(rest, 0)[..i - 1];
      }
    case Nested(inner, rest) =>
      var a, b := Show(inner, 0), Show(rest, 0);
      if i > 0 {
        if i <= |a| + 1 { ShownNonnegative(inner, i - 1); } else { ShownNonnegative(rest, i - |a| - 2); }
        BalanceShown(inner);
        NestedPrefix(a, b, i);
      }
  }

  lemma NestedPrefix(a: string, b: string, i: nat)
    requires 0 < i <= |a| + 2 + |b| && Balance(a) == 0
    requires if i <= |a| + 1 then Balance(a[..i - 1]) >= 0 else Balance(b[..i - |a| - 2]) >= 0
    ensures Balance(("[" + a + "]" + b)[..i]) >= 0
  {
    if i <= |a| + 1 {
      BalancePlus("[", a[..i - 1]);
      assert ("[" + a + "]" + b)[..i] == "[" + a[..i - 1];
    } else {
      BalancePlus("[", a);
      BalancePlus("[" + a, "]");
      BalancePlus("[" + a + "]", b[..i - |a| - 2]);
      assert ("[" + a + "]" + b)[..i] == "[" + a + "]" + b[..i - |a| - 2];
    }
  }

  /** The texts of BalancedTextRewritten are exactly the balanced ones: no prefix
      closes more than it has opened, and all is closed at the end. */
  lemma TreesAreBalancedTexts(s: string)
    ensures (exists t :: BracketFree(t) && Show(t, 0) == s) <==> WellNested(s)
  {
    if WellNested(s) {
      var t := ReadTree(s);
    }
    forall t | BracketFree(t) && Show(t, 0) == s ensures WellNested(s) {
      BalanceShown(t);
      forall i | 0 <= i <= |s| ensures Balance(s[..i]) >= 0 {
        ShownNonnegative(t, i);
      }
    }
  }

  /** The warning is about numbers only: there is none if and only if there are as
      many opening as closing brackets, in whatever order. */
  lemma {:induction false} WarningCountsBrackets(s: string)
    ensures Balance(s) + multiset(s)[']'] == multiset(s)['[']
    decreases |s|
  {
    if s != [] {
      WarningCountsBrackets(s[..|s| - 1]);
      assert s == s[..|s| - 1] + [s[|s| - 1]];
    }
  }
}
