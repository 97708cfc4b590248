// Stripping comments from a pipeline file.
module Jsonc {
  import opened Text

  /** What a text is made of. A string keeps its quotes and escapes; a line
      comment stops before its newline; an unclosed string or block comment
      runs to the end of the text. */
  datatype Kind = Plain | Str | LineComment | BlockComment

  datatype Token = Token(kind: Kind, text: string)

  predicate IsComment(kind: Kind) { kind == LineComment || kind == BlockComment }

  predicate Opens(s: string, a: char, b: char) { |s| >= 2 && s[0] == a && s[1] == b }

  // --------------------------------------------------------------- scanning

  /** Length of the rest of a string, its closing quote included. */
  function StringRest(s: string): (n: nat)
    ensures n <= |s|
  {
    if s == "" then 0
    else if s[0] == '\\' && |s| > 1 then 2 + StringRest(s[2..])
    else if s[0] == '"' then 1
    else 1 + StringRest(s[1..])
  }

  /** Length of the rest of a line, its newline excluded. */
  function LineRest(s: string): (n: nat)
    ensures n <= |s|
  {
    if s == "" || s[0] == '\n' then 0 else 1 + LineRest(s[1..])
  }

  /** Length of the rest of a block comment, its closing mark included. */
  function BlockRest(s: string): (n: nat)
    ensures n <= |s|
  {
    if s == "" then 0
    else if Opens(s, '*', '/') then 2
    else 1 + BlockRest(s[1..])
  }

  /** Kind of the first token. */
  function KindOf(s: string): Kind
    requires s != ""
  {
    if s[0] == '"' then Str
    else if Opens(s, '/', '/') then LineComment
    else if Opens(s, '/', '*') then BlockComment
    else Plain
  }

  /** Length of the first token. */
  function Length(s: string): (n: nat)
    requires s != ""
    ensures 1 <= n <= |s|
  {
    match KindOf(s)
    case Plain => 1
    case Str => 1 + StringRest(s[1..])
    case LineComment => 2 + LineRest(s[2..])
    case BlockComment => 2 + BlockRest(s[2..])
  }

  function Tokens(s: string): seq<Token>
    decreases |s|
  {
    if s == "" then [] else [Token(KindOf(s), s[..Length(s)])] + Tokens(s[Length(s)..])
  }

  function Flatten(ts: seq<Token>): string {
    if ts == [] then "" else ts[0].text + Flatten(ts[1..])
  }

  function Kept(ts: seq<Token>): seq<Token> {
    if ts == [] then []
    else if IsComment(ts[0].kind) then Kept(ts[1..])
    else [ts[0]] + Kept(ts[1..])
  }

  /** The specification: drop the comment tokens, keep the rest verbatim. */
  function Strip(s: string): string {
    Flatten(Kept(Tokens(s)))
  }

  lemma FlattenCons(t: Token, ts: seq<Token>)
    ensures Flatten([t] + ts) == t.text + Flatten(ts)
  {
    assert ([t] + ts)[1..] == ts;
  }

  lemma KeptCons(t: Token, ts: seq<Token>)
    ensures Kept([t] + ts) == if IsComment(t.kind) then Kept(ts) else [t] + Kept(ts)
  {
    assert ([t] + ts)[1..] == ts;
  }

  /** The tokens are the text, cut up. */
  lemma {:induction false} TokensCoverText(s: string)
    ensures Flatten(Tokens(s)) == s
    decreases |s|
  {
    if s != "" {
      var n := Length(s);
      TokensCoverText(s[n..]);
      FlattenCons(Token(KindOf(s), s[..n]), Tokens(s[n..]));
      SplitText(s, n);
    }
  }

  lemma SplitText(s: string, n: nat)
    requires n <= |s|
    ensures s == s[..n] + s[n..]
  {
  }

  /** A comment contributes nothing, any other token itself. */
  lemma StripUnfold(s: string, n: nat)
    requires s != "" && n == Length(s)
    ensures IsComment(KindOf(s)) ==> Strip(s) == Strip(s[n..])
    ensures !IsComment(KindOf(s)) ==> Strip(s) == s[..n] + Strip(s[n..])
  {
    var t, rest := Token(KindOf(s), s[..n]), Tokens(s[n..]);
    KeptCons(t, rest);
    FlattenCons(t, Kept(rest));
  }

  // ------------------------------------------------------------ what is left

  /** A closed string does not look past its closing quote. */
  lemma {:induction false} StringRestLocal(s: string, more: string)
    requires StringRest(s) < |s|
    ensures StringRest(s[..StringRest(s)] + more) == StringRest(s)
    decreases |s|
  {
    var n := StringRest(s);
    var k := if s[0] == '\\' && |s| > 1 then 2 else 1;
    if !(k == 1 && s[0] == '"') {
      StringRestLocal(s[k..], more);
      assert (s[..n] + more)[k..] == s[k..][..StringRest(s[k..])] + more;
    }
  }

  /** A kept token is read the same way when everything after it is stripped. */
  lemma FirstSurvives(s: string, n: nat, w: string)
    requires s != "" && !IsComment(KindOf(s)) && n == Length(s) && w == Strip(s[n..])
    ensures var again := s[..n] + w;
            KindOf(again) == KindOf(s) && Length(again) == n
  {
    var again := s[..n] + w;
    if n == |s| {
      assert s[n..] == "";
      assert w == "";
      assert again == s;
    } else if s[0] == '"' {
      StringRestLocal(s[1..], w);
      assert again[1..] == s[1..][..n - 1] + w;
    } else if s[0] == '/' {
      SlashSurvives(s[1..]);
    }
  }

  /** What follows a lone slash still does not make it an opener. */
  lemma SlashSurvives(rest: string)
    requires rest != "" && rest[0] != '/' && rest[0] != '*'
    ensures Strip(rest) != "" && Strip(rest)[0] == rest[0]
  {
    StripUnfold(rest, Length(rest));
  }

  /** Stripping leaves exactly the tokens that are not comments: removing a
      comment never joins its neighbours into something new. */
  lemma {:induction false} StripKeepsTokens(s: string)
    ensures Tokens(Strip(s)) == Kept(Tokens(s))
    decreases |s|
  {
    if s != "" {
      var n := Length(s);
      var w := Strip(s[n..]);
      StripUnfold(s, n);
      StripKeepsTokens(s[n..]);
      KeptCons(Token(KindOf(s), s[..n]), Tokens(s[n..]));
      if !IsComment(KindOf(s)) {
        FirstSurvives(s, n, w);
        TokensCons(s[..n] + w, n);
        Cut(s[..n], w);
      }
    }
  }

  lemma TokensCons(s: string, n: nat)
    requires s != "" && n == Length(s)
    ensures Tokens(s) == [Token(KindOf(s), s[..n])] + Tokens(s[n..])
  {
  }

  lemma Cut(a: string, b: string)
    ensures (a + b)[..|a|] == a && (a + b)[|a|..] == b
  {
  }

  predicate NoComments(ts: seq<Token>) {
    forall i :: 0 <= i < |ts| ==> !IsComment(ts[i].kind)
  }

  lemma {:induction false} KeptNoComments(ts: seq<Token>)
    ensures NoComments(Kept(ts))
    ensures |Kept(ts)| <= |ts|
    ensures NoComments(ts) <==> Kept(ts) == ts
  {
    if ts != [] {
      KeptNoComments(ts[1..]);
      if !IsComment(ts[0].kind) {
        assert ts == [ts[0]] + ts[1..];
        assert Kept(ts)[1..] == Kept(ts[1..]);
        assert NoComments(ts) <==> NoComments(ts[1..]);
      }
    }
  }

  lemma StripIdempotent(s: string)
    ensures Strip(Strip(s)) == Strip(s)
  {
    StripKeepsTokens(s);
    KeptNoComments(Tokens(s));
    KeptNoComments(Kept(Tokens(s)));
  }

  /** Exactly the comment-free texts are unchanged. */
  lemma UnchangedExactlyWhenCommentFree(s: string)
    ensures Strip(s) == s <==> NoComments(Tokens(s))
  {
    TokensCoverText(s);
    StripKeepsTokens(s);
    KeptNoComments(Tokens(s));
  }

  /** Two neighbouring plain characters that would open a comment. */
  predicate Opener(a: Token, b: Token) {
    a == Token(Plain, "/") && (b == Token(Plain, "/") || b == Token(Plain, "*"))
  }

  ghost predicate NoOpener(ts: seq<Token>) {
    forall i, j :: 0 <= i < j < |ts| && j == i + 1 ==> !Opener(ts[i], ts[j])
  }

  lemma NoOpenerCons(t: Token, ts: seq<Token>)
    requires NoOpener(ts) && (ts != [] ==> !Opener(t, ts[0]))
    ensures NoOpener([t] + ts)
  {
    var all := [t] + ts;
    forall i, j | 0 <= i < j < |all| && j == i + 1 ensures !Opener(all[i], all[j]) {
      if i > 0 { assert all[i] == ts[i - 1] && all[j] == ts[j - 1]; }
    }
  }

  lemma {:induction false} TokensHaveNoOpener(s: string)
    ensures NoOpener(Tokens(s))
    decreases |s|
  {
    if s != "" {
      var n := Length(s);
      TokensHaveNoOpener(s[n..]);
      TokensCons(s, n);
      if s[n..] != "" {
        NeighboursDoNotOpen(s, n);
      }
      NoOpenerCons(Token(KindOf(s), s[..n]), Tokens(s[n..]));
    }
  }

  lemma NeighboursDoNotOpen(s: string, n: nat)
    requires s != "" && n == Length(s) < |s|
    ensures !Opener(Token(KindOf(s), s[..n]), Token(KindOf(s[n..]), s[n..][..Length(s[n..])]))
  {
    var rest := s[n..];
    if KindOf(s) == Plain && s[0] == '/' {
      assert rest[0] == s[1];
      assert rest[..Length(rest)][0] == s[1];
    } else if KindOf(s) == Plain {
      assert s[..n][0] == s[0];
    }
  }

  /** Outside strings, the output holds neither a comment nor the two
      characters that would open one. */
  lemma NoOpenerOutsideStrings(s: string)
    ensures NoComments(Tokens(Strip(s)))
    ensures NoOpener(Tokens(Strip(s)))
  {
    StripKeepsTokens(s);
    KeptNoComments(Tokens(s));
    TokensHaveNoOpener(Strip(s));
  }

  // ------------------------------------------------------------------ the loop

  predicate Occurs(pattern: string, text: string, k: nat) {
    k + |pattern| <= |text| && text[k..k + |pattern|] == pattern
  }

  /** First occurrence of `pattern` at or after `from`; |text| when there is none. */
  method Find(text: string, pattern: string, from: nat) returns (k: nat)
    requires from <= |text|
    ensures from <= k <= |text|
    ensures k < |text| ==> Occurs(pattern, text, k)
    ensures forall j :: from <= j < k ==> !Occurs(pattern, text, j)
  {
    k := from;
    while k < |text| && !Occurs(pattern, text, k)
      invariant from <= k <= |text|
      invariant forall j :: from <= j < k ==> !Occurs(pattern, text, j)
    {
      k := k + 1;
    }
  }

  lemma NewlineOccurs(text: string, k: nat)
    requires k < |text|
    ensures Occurs("\n", text, k) <==> text[k] == '\n'
  {
    assert text[k..k + 1] == [text[k]];
  }

  lemma CloseOccurs(text: string, k: nat)
    requires k < |text|
    ensures Occurs("*/", text, k) <==> Opens(text[k..], '*', '/')
  {
    if k + 1 < |text| { assert text[k..k + 2] == [text[k], text[k + 1]]; }
  }

  lemma {:induction false} LineEnds(text: string, from: nat, k: nat)
    requires from <= k <= |text|
    requires k < |text| ==> Occurs("\n", text, k)
    requires forall j :: from <= j < k ==> !Occurs("\n", text, j)
    ensures LineRest(text[from..]) == k - from
    decreases k - from
  {
    if from < k {
      NewlineOccurs(text, from);
      LineEnds(text, from + 1, k);
      assert text[from..][1..] == text[from + 1..];
    } else if k < |text| {
      NewlineOccurs(text, k);
    }
  }

  lemma LineBegins(text: string, index: nat, k: nat)
    requires index + 1 < |text| && text[index] != '\n' && text[index + 1] != '\n'
    requires index <= k <= |text| && (k < |text| ==> Occurs("\n", text, k))
    ensures k >= index + 2
  {
    if k < |text| { NewlineOccurs(text, k); }
  }

  lemma {:induction false} BlockEnds(text: string, from: nat, k: nat)
    requires from <= k <= |text|
    requires k < |text| ==> Occurs("*/", text, k)
    requires forall j :: from <= j < k ==> !Occurs("*/", text, j)
    ensures BlockRest(text[from..]) == (if k < |text| then k - from + 2 else k - from)
    decreases k - from
  {
    if from < k {
      CloseOccurs(text, from);
      BlockEnds(text, from + 1, k);
      assert text[from..][1..] == text[from + 1..];
    } else if k < |text| {
      CloseOccurs(text, k);
    }
  }

  /** What is still to come from `index` on. */
  ghost function Pending(text: string, index: nat, inString: bool): string
    requires index <= |text|
  {
    if inString then StringThenRest(text[index..]) else Strip(text[index..])
  }

  lemma StripString(s: string)
    requires s != "" && s[0] == '"'
    ensures var n := StringRest(s[1..]);
            Strip(s) == ['"'] + (s[1..][..n] + Strip(s[1..][n..]))
  {
    var inner := s[1..];
    var n := StringRest(inner);
    StripUnfold(s, 1 + n);
    assert s[1 + n..] == inner[n..];
    assert s[..1 + n] == ['"'] + inner[..n];
    Regroup(['"'], inner[..n], Strip(inner[n..]));
  }

  lemma EnterString(text: string, index: nat)
    requires index < |text| && text[index] == '"'
    ensures Pending(text, index, false) == ['"'] + Pending(text, index + 1, true)
  {
    StripString(text[index..]);
    assert text[index..][1..] == text[index + 1..];
  }

  /** An escaped character, whatever it is, is part of the string. */
  lemma InsideEscape(text: string, index: nat)
    requires index + 1 < |text| && text[index] == '\\'
    ensures Pending(text, index, true) == [text[index], text[index + 1]] + Pending(text, index + 2, true)
  {
    StringGrows(text[index..], 2);
    assert text[index..][2..] == text[index + 2..];
    assert text[index..][..2] == [text[index], text[index + 1]];
  }

  lemma InsidePlain(text: string, index: nat)
    requires index < |text| && text[index] != '"' && !(text[index] == '\\' && index + 1 < |text|)
    ensures Pending(text, index, true) == [text[index]] + Pending(text, index + 1, true)
  {
    StringGrows(text[index..], 1);
    assert text[index..][1..] == text[index + 1..];
    assert text[index..][..1] == [text[index]];
  }

  lemma InsideQuote(text: string, index: nat)
    requires index < |text| && text[index] == '"'
    ensures Pending(text, index, true) == ['"'] + Pending(text, index + 1, false)
  {
    assert text[index..][1..] == text[index + 1..];
    assert text[index..][..1] == ['"'];
  }

  /** What a string still holds, and what follows it. */
  ghost function StringThenRest(rest: string): string {
    rest[..StringRest(rest)] + Strip(rest[StringRest(rest)..])
  }

  lemma StringGrows(rest: string, k: nat)
    requires rest != "" && rest[0] != '"' && k == (if rest[0] == '\\' && |rest| > 1 then 2 else 1)
    ensures StringThenRest(rest) == rest[..k] + StringThenRest(rest[k..])
  {
    var inner := rest[k..];
    var n := StringRest(inner);
    assert StringRest(rest) == k + n;
    assert rest[..k + n] == rest[..k] + inner[..n];
    assert rest[k + n..] == inner[n..];
    Regroup(rest[..k], inner[..n], Strip(inner[n..]));
  }

  lemma SkipLine(text: string, index: nat, k: nat)
    requires index + 2 <= k <= |text| && text[index] == '/' && text[index + 1] == '/'
    requires LineRest(text[index + 2..]) == k - (index + 2)
    ensures Pending(text, index, false) == Pending(text, k, false)
  {
    var rest := text[index..];
    assert rest[2..] == text[index + 2..];
    StripUnfold(rest, k - index);
    assert rest[k - index..] == text[k..];
  }

  lemma SkipBlock(text: string, index: nat, k: nat)
    requires index + 2 <= k <= |text| && text[index] == '/' && text[index + 1] == '*'
    requires BlockRest(text[index + 2..]) == k - (index + 2)
    ensures Pending(text, index, false) == Pending(text, k, false)
  {
    var rest := text[index..];
    assert rest[2..] == text[index + 2..];
    StripUnfold(rest, k - index);
    assert rest[k - index..] == text[k..];
  }

  lemma KeepPlain(text: string, index: nat)
    requires index < |text| && KindOf(text[index..]) == Plain
    ensures Pending(text, index, false) == [text[index]] + Pending(text, index + 1, false)
  {
    StripUnfold(text[index..], 1);
    assert text[index..][1..] == text[index + 1..];
    assert text[index..][..1] == [text[index]];
  }

  /** The output so far, followed by what is still to come, is the stripped text. */
  ghost predicate Progress(text: string, index: nat, inString: bool, out: string) {
    index <= |text| && out + Pending(text, index, inString) == Strip(text)
  }

  lemma Emit(text: string, index: nat, inString: bool, out: string, piece: string, next: nat, stillIn: bool)
    requires Progress(text, index, inString, out) && next <= |text|
    requires Pending(text, index, inString) == piece + Pending(text, next, stillIn)
    ensures Progress(text, next, stillIn, out + piece)
  {
    Regroup(out, piece, Pending(text, next, stillIn));
  }

  lemma EscapeStep(text: string, index: nat, out: string)
    requires Progress(text, index, true, out) && index + 1 < |text| && text[index] == '\\'
    ensures Progress(text, index + 2, true, out + [text[index], text[index + 1]])
  {
    InsideEscape(text, index);
    Emit(text, index, true, out, [text[index], text[index + 1]], index + 2, true);
  }

  lemma StringStep(text: string, index: nat, out: string, stillIn: bool)
    requires Progress(text, index, true, out) && index < |text|
    requires !(text[index] == '\\' && index + 1 < |text|) && stillIn == (text[index] != '"')
    ensures Progress(text, index + 1, stillIn, out + [text[index]])
  {
    if stillIn { InsidePlain(text, index); } else { InsideQuote(text, index); }
    Emit(text, index, true, out, [text[index]], index + 1, stillIn);
  }

  lemma QuoteStep(text: string, index: nat, out: string)
    requires Progress(text, index, false, out) && index < |text| && text[index] == '"'
    ensures Progress(text, index + 1, true, out + [text[index]])
  {
    EnterString(text, index);
    Emit(text, index, false, out, ['"'], index + 1, true);
  }

  lemma Begin(text: string)
    ensures Progress(text, 0, false, "")
  {
    assert text[0..] == text;
    assert "" + Strip(text) == Strip(text);
  }

  lemma Finish(text: string, out: string, inString: bool)
    requires Progress(text, |text|, inString, out)
    ensures out == Strip(text)
  {
    assert text[|text|..] == "";
    assert Pending(text, |text|, inString) == "";
  }

  lemma LineStep(text: string, index: nat, out: string, end: nat)
    requires Progress(text, index, false, out)
    requires index + 1 < |text| && text[index] == '/' && text[index + 1] == '/'
    requires index <= end <= |text| && (end < |text| ==> Occurs("\n", text, end))
    requires forall j :: index <= j < end ==> !Occurs("\n", text, j)
    ensures index < end && Progress(text, end, false, out)
  {
    LineBegins(text, index, end);
    LineEnds(text, index + 2, end);
    SkipLine(text, index, end);
  }

  lemma BlockStep(text: string, index: nat, out: string, end: nat, next: nat)
    requires Progress(text, index, false, out)
    requires index + 1 < |text| && text[index] == '/' && text[index + 1] == '*'
    requires index + 2 <= end <= |text| && (end < |text| ==> Occurs("*/", text, end))
    requires forall j :: index + 2 <= j < end ==> !Occurs("*/", text, j)
    requires next == if end == |text| then end else end + 2
    ensures index < next && Progress(text, next, false, out)
  {
    BlockEnds(text, index + 2, end);
    SkipBlock(text, index, next);
  }

  lemma PlainStep(text: string, index: nat, out: string)
    requires Progress(text, index, false, out) && index < |text| && text[index] != '"'
    requires !Opens(text[index..], '/', '/') && !Opens(text[index..], '/', '*')
    ensures Progress(text, index + 1, false, out + [text[index]])
  {
    KeepPlain(text, index);
    Emit(text, index, false, out, [text[index]], index + 1, false);
  }

  /** The index-jumping loop computes the specification. */
  method StripJsoncComments(text: string) returns (stripped: string)
    ensures stripped == Strip(text)
  {
    var out, index, inString := "", 0, false;
    Begin(text);
    while index < |text|
      invariant Progress(text, index, inString, out)
    {
      var c := text[index];
      if inString {
        if c == '\\' && index + 1 < |text| {
          EscapeStep(text, index, out);
          out := out + [c, text[index + 1]];
          index := index + 2;
          continue;
        }
        StringStep(text, index, out, c != '"');
        out := out + [c];
        if c == '"' { inString := false; }
        index := index + 1;
        continue;
      }
      if c == '"' {
        QuoteStep(text, index, out);
        inString, out, index := true, out + [c], index + 1;
        continue;
      }
      if c == '/' && index + 1 < |text| {
        if text[index + 1] == '/' {
          var end := Find(text, "\n", index);
          LineStep(text, index, out, end);
          index := end;
          continue;
        }
        if text[index + 1] == '*' {
          var end := Find(text, "*/", index + 2);
          var next := if end == |text| then end else end + 2;
          BlockStep(text, index, out, end, next);
          index := next;
          continue;
        }
      }
      PlainStep(text, index, out);
      out, index := out + [c], index + 1;
    }
    Finish(text, out, inString);
    stripped := out;
  }
}
