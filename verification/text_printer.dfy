/** The text printer's placeholder substitution: every unescaped `$` in a
    template is replaced by the next string of a match list, a `\$` is
    copied as it stands, and everything else passes through in order.

    The template is read as a sequence of tokens (a character, a
    placeholder or an escaped dollar) and the output is those tokens
    filled in from the match list. */
module TextPrinting {

  /** The match the `k`-th placeholder (counting from 0) receives; nothing once the list is used up. */
  function MatchAt(matches: seq<string>, k: nat): string {
    if k < |matches| then matches[k] else ""
  }

  // ---------------------------------------------------------------------------
  // Reading a template
  // ---------------------------------------------------------------------------

  datatype Token = Literal(c: char) | Placeholder | EscapedDollar

  /** True when `content` starts with a backslash followed by a dollar sign. */
  predicate EscapedDollarAt(content: string) {
    |content| >= 2 && content[0] == '\\' && content[1] == '$'
  }

  /** How many characters the first token of `content` covers. */
  function Width(content: string): nat
    requires content != []
  {
    if EscapedDollarAt(content) then 2 else 1
  }

  /** The first token of `content`. */
  function Lex(content: string): Token
    requires content != []
  {
    if EscapedDollarAt(content) then EscapedDollar
    else if content[0] == '$' then Placeholder
    else Literal(content[0])
  }

  /** The template as tokens, read left to right. */
  function Tokenize(content: string): seq<Token>
    decreases |content|
  {
    if content == [] then [] else [Lex(content)] + Tokenize(content[Width(content)..])
  }

  /** The characters a token was read from. */
  function Spelling(t: Token): string {
    match t
    case Literal(c) => [c]
    case Placeholder => "$"
    case EscapedDollar => "\\$"
  }

  /** The characters a token sequence was read from. */
  function Source(tokens: seq<Token>): string {
    if tokens == [] then "" else Spelling(tokens[0]) + Source(tokens[1..])
  }

  // ---------------------------------------------------------------------------
  // Filling a template
  // ---------------------------------------------------------------------------

  /** How many matches a token consumes. */
  function Used(t: Token): nat {
    if t.Placeholder? then 1 else 0
  }

  /** What a token prints when `k` matches have already been used. */
  function TokenText(t: Token, matches: seq<string>, k: nat): string {
    match t
    case Literal(c) => [c]
    case Placeholder => MatchAt(matches, k)
    case EscapedDollar => "\\$"
  }

  /** What a token sequence prints when `k` matches have already been used. */
  function Fill(tokens: seq<Token>, matches: seq<string>, k: nat): string {
    if tokens == [] then ""
    else TokenText(tokens[0], matches, k) + Fill(tokens[1..], matches, k + Used(tokens[0]))
  }

  /** The number of placeholders among the tokens. */
  function Holes(tokens: seq<Token>): nat {
    if tokens == [] then 0 else Used(tokens[0]) + Holes(tokens[1..])
  }

  /** The text printed for `content` when `k` matches have already been used. */
  function Expand(content: string, matches: seq<string>, k: nat): string {
    Fill(Tokenize(content), matches, k)
  }

  /** The number of unescaped `$` in `content`, i.e. the matches it consumes. */
  function Placeholders(content: string): nat {
    Holes(Tokenize(content))
  }

  /** A template that does not end in a backslash: cutting right after it never
      separates a backslash from the `$` it escapes. */
  predicate NoTrailingBackslash(content: string) {
    content == [] || content[|content| - 1] != '\\'
  }

  /** Text with neither a `$` nor a backslash: it prints as it stands. */
  predicate Plain(s: string) {
    forall i :: 0 <= i < |s| ==> s[i] != '$' && s[i] != '\\'
  }

  // ---------------------------------------------------------------------------
  // The scan, as the printer performs it
  // ---------------------------------------------------------------------------

  /** Left-to-right scan with a running match index. */
  method Substitute(content: string, matches: seq<string>) returns (out: string)
    ensures out == Expand(content, matches, 0)
  {
    out := "";
    var i: nat, k: nat := 0, 0;
    while i < |content|
      invariant 0 <= i <= |content|
      invariant out + Scan(content, i, matches, k) == Scan(content, 0, matches, 0)
    {
      var step := Step(content, i, matches, k);
      Regroup(out, step.piece, Scan(content, i + step.width, matches, k + step.used),
              Scan(content, 0, matches, 0));
      out, i, k := out + step.piece, i + step.width, k + step.used;
    }
    ScanIsExpand(content, 0, matches, 0);
    assert content[0..] == content;
  }

  /** What one scan step does: the text it prints, the characters it consumes
      and the matches it uses. */
  datatype Scanned = Scanned(piece: string, width: nat, used: nat)

  /** One scan step at position `i` with `k` matches used. A backslash before
      a `$` is copied with it, a `$` prints the next match, any other character
      is copied. */
  function Step(content: string, i: nat, matches: seq<string>, k: nat): (r: Scanned)
    requires i < |content|
    ensures 1 <= r.width && i + r.width <= |content|
  {
    if i + 1 < |content| && content[i] == '\\' && content[i + 1] == '$' then Scanned("\\$", 2, 0)
    else if content[i] == '$' then Scanned(MatchAt(matches, k), 1, 1)
    else Scanned([content[i]], 1, 0)
  }

  /** What the scan prints from position `i` on, with `k` matches used. */
  function Scan(content: string, i: nat, matches: seq<string>, k: nat): string
    requires i <= |content|
    decreases |content| - i
  {
    if i == |content| then ""
    else
      var step := Step(content, i, matches, k);
      step.piece + Scan(content, i + step.width, matches, k + step.used)
  }

  /** The scan step at position `i` prints the first token of the rest of the
      template, and the scan goes on right after that token. */
  lemma ExpandAt(content: string, i: nat, matches: seq<string>, k: nat)
    requires i < |content|
    ensures Expand(content[i..], matches, k)
         == Step(content, i, matches, k).piece
            + Expand(content[i + Step(content, i, matches, k).width..], matches, k + Step(content, i, matches, k).used)
  {
    var step := Step(content, i, matches, k);
    var rest := content[i..];
    var w := Width(rest);
    assert rest[w..] == content[i + w..];
    assert Tokenize(rest) == [Lex(rest)] + Tokenize(content[i + w..]);
  }

  /** The character-by-character scan prints what filling the template's
      tokens prints. */
  lemma {:induction false} ScanIsExpand(content: string, i: nat, matches: seq<string>, k: nat)
    requires i <= |content|
    ensures Scan(content, i, matches, k) == Expand(content[i..], matches, k)
    decreases |content| - i
  {
    if i == |content| {
      assert content[i..] == [];
    } else {
      var step := Step(content, i, matches, k);
      ScanIsExpand(content, i + step.width, matches, k + step.used);
      ExpandAt(content, i, matches, k);
      ScanAt(content, i, matches, k);
      SamePieceSameTail(Scan(content, i, matches, k), Expand(content[i..], matches, k), step.piece,
                        Scan(content, i + step.width, matches, k + step.used),
                        Expand(content[i + step.width..], matches, k + step.used));
    }
  }

  /** Two texts that print the same piece before equal tails are equal. */
  lemma SamePieceSameTail<T>(a: seq<T>, b: seq<T>, piece: seq<T>, ta: seq<T>, tb: seq<T>)
    requires a == piece + ta && b == piece + tb && ta == tb
    ensures a == b
  {
  }

  /** The scan from position `i` is the piece of the step at `i`, then the
      scan after it. */
  lemma ScanAt(content: string, i: nat, matches: seq<string>, k: nat)
    requires i < |content|
    ensures Scan(content, i, matches, k)
         == Step(content, i, matches, k).piece
            + Scan(content, i + Step(content, i, matches, k).width, matches, k + Step(content, i, matches, k).used)
  {
  }

  /** A three-part concatenation regrouped: in the scan, the printed piece
      moves from the pending text to the output. */
  lemma Regroup<T>(out: seq<T>, piece: seq<T>, tail: seq<T>, total: seq<T>)
    requires out + (piece + tail) == total
    ensures (out + piece) + tail == total
  {
  }

  /** The printer object: substituted text is buffered until it is flushed. */
  class TextPrinter {
    const outputFile: string
    var buffer: string

    constructor (outputFile: string)
      ensures this.outputFile == outputFile && buffer == ""
    {
      this.outputFile := outputFile;
      buffer := "";
    }

    /** Appends the substituted template to the buffer. */
    method Print(content: string, matches: seq<string>)
      modifies this
      ensures buffer == old(buffer) + Expand(content, matches, 0)
    {
      var text := Substitute(content, matches);
      buffer := buffer + text;
    }

    /** Hands over the buffered text (the printer writes it to its file) and empties the buffer. */
    method Flush() returns (written: string)
      modifies this
      ensures written == old(buffer) && buffer == ""
    {
      written := buffer;
      buffer := "";
    }
  }

  /** One round of the vector-match test, without its file I/O: a fresh
      printer prints one template and is flushed. */
  method PrintVectorMatchRound(content: string, matches: seq<string>) returns (written: string)
    ensures written == Expand(content, matches, 0)
  {
    var printer := new TextPrinter("out");
    printer.Print(content, matches);
    written := printer.Flush();
  }

  // ---------------------------------------------------------------------------
  // Reading loses nothing
  // ---------------------------------------------------------------------------

  /** The first token is spelled by the characters it covers. */
  lemma LexSpelling(content: string)
    requires content != []
    ensures Spelling(Lex(content)) == content[..Width(content)]
  {
  }

  /** Spelling out the tokens of a template gives the template back. */
  lemma {:induction false} SourceOfTokenize(content: string)
    ensures Source(Tokenize(content)) == content
    decreases |content|
  {
    if content != [] {
      var w := Width(content);
      var rest := content[w..];
      var ts := Tokenize(content);
      assert ts == [Lex(content)] + Tokenize(rest);
      assert ts[0] == Lex(content) && ts[1..] == Tokenize(rest);
      assert Source(ts) == Spelling(Lex(content)) + Source(Tokenize(rest));
      SourceOfTokenize(rest);
      LexSpelling(content);
      assert content == content[..w] + rest;
    }
  }

  // ---------------------------------------------------------------------------
  // Substitution works piece by piece
  // ---------------------------------------------------------------------------

  /** The first token of a concatenation is the first token of its first part. */
  lemma ConcatStep(a: string, b: string)
    requires a != [] && NoTrailingBackslash(a)
    ensures Width(a + b) == Width(a) && Lex(a + b) == Lex(a)
    ensures (a + b)[Width(a)..] == a[Width(a)..] + b
    ensures NoTrailingBackslash(a[Width(a)..])
  {
    var ab := a + b;
    assert |a| == 1 ==> a[0] != '\\';
    assert ab[0] == a[0];
    assert |a| >= 2 ==> ab[1] == a[1];
  }

  /** Reading a concatenation reads each part in turn, unless the cut falls
      between a backslash and the `$` it escapes. */
  lemma {:induction false} TokenizeConcat(a: string, b: string)
    requires NoTrailingBackslash(a)
    ensures Tokenize(a + b) == Tokenize(a) + Tokenize(b)
    decreases |a|
  {
    if a == [] {
      assert a + b == b;
    } else {
      ConcatStep(a, b);
      var w := Width(a);
      var rest := a[w..];
      TokenizeConcat(rest, b);
      assert Tokenize(a + b) == [Lex(a)] + Tokenize(rest + b);
      assert Tokenize(a) == [Lex(a)] + Tokenize(rest);
      Regroup([Lex(a)], Tokenize(rest), Tokenize(b), Tokenize(a + b));
    }
  }

  /** Filling starts with the first token. */
  lemma FillHead(s: seq<Token>, matches: seq<string>, k: nat)
    requires s != []
    ensures Fill(s, matches, k) == TokenText(s[0], matches, k) + Fill(s[1..], matches, k + Used(s[0]))
  {
  }

  /** Filling a concatenation starts with the first token of its first part. */
  lemma FillConcatHead(s: seq<Token>, t: seq<Token>, matches: seq<string>, k: nat)
    requires s != []
    ensures Fill(s + t, matches, k) == TokenText(s[0], matches, k) + Fill(s[1..] + t, matches, k + Used(s[0]))
  {
    assert (s + t)[0] == s[0] && (s + t)[1..] == s[1..] + t;
  }

  /** The inductive step of `FillConcat`: the claim for the first part without
      its first token gives the claim for the whole first part. */
  lemma FillConcatStep(s: seq<Token>, t: seq<Token>, matches: seq<string>, k: nat)
    requires s != []
    requires Fill(s[1..] + t, matches, k + Used(s[0]))
          == Fill(s[1..], matches, k + Used(s[0])) + Fill(t, matches, k + Used(s[0]) + Holes(s[1..]))
    ensures Fill(s + t, matches, k) == Fill(s, matches, k) + Fill(t, matches, k + Used(s[0]) + Holes(s[1..]))
  {
    FillHead(s, matches, k);
    FillConcatHead(s, t, matches, k);
    PrefixThenSplit(TokenText(s[0], matches, k), Fill(s + t, matches, k),
                    Fill(s[1..] + t, matches, k + Used(s[0])), Fill(s, matches, k),
                    Fill(s[1..], matches, k + Used(s[0])),
                    Fill(t, matches, k + Used(s[0]) + Holes(s[1..])));
  }

  /** Filling from equal match indices prints the same. */
  lemma SameIndexSameFill(tokens: seq<Token>, matches: seq<string>, k: nat, k': nat)
    requires k == k'
    ensures Fill(tokens, matches, k) == Fill(tokens, matches, k')
  {
  }

  lemma {:induction false} FillConcat(s: seq<Token>, t: seq<Token>, matches: seq<string>, k: nat)
    ensures Fill(s + t, matches, k) == Fill(s, matches, k) + Fill(t, matches, k + Holes(s))
  {
    if s == [] {
      assert s + t == t && Holes(s) == 0;
      assert Fill(s, matches, k) + Fill(t, matches, k) == Fill(t, matches, k);
    } else {
      FillConcat(s[1..], t, matches, k + Used(s[0]));
      FillConcatStep(s, t, matches, k);
      assert Holes(s) == Used(s[0]) + Holes(s[1..]);
      SameIndexSameFill(t, matches, k + Used(s[0]) + Holes(s[1..]), k + Holes(s));
    }
  }

  /** If `whole` is `x` before `rest`, and `rest` splits into `a` and `b`, then
      `whole` splits into `x + a` and `b`. */
  lemma PrefixThenSplit<T>(x: seq<T>, whole: seq<T>, rest: seq<T>, xa: seq<T>, a: seq<T>, b: seq<T>)
    requires whole == x + rest && rest == a + b && xa == x + a
    ensures whole == xa + b
  {
  }

  lemma {:induction false} HolesConcat(s: seq<Token>, t: seq<Token>)
    ensures Holes(s + t) == Holes(s) + Holes(t)
  {
    if s == [] {
      assert s + t == t;
    } else {
      assert (s + t)[0] == s[0] && (s + t)[1..] == s[1..] + t;
      HolesConcat(s[1..], t);
    }
  }

  /** Substitution works piece by piece: the second piece continues with the
      match index the first piece left. */
  lemma ExpandConcat(a: string, b: string, matches: seq<string>, k: nat)
    requires NoTrailingBackslash(a)
    ensures Expand(a + b, matches, k) == Expand(a, matches, k) + Expand(b, matches, k + Placeholders(a))
    ensures Placeholders(a + b) == Placeholders(a) + Placeholders(b)
  {
    TokenizeConcat(a, b);
    FillConcat(Tokenize(a), Tokenize(b), matches, k);
    HolesConcat(Tokenize(a), Tokenize(b));
  }

  // ---------------------------------------------------------------------------
  // What the substitution promises
  // ---------------------------------------------------------------------------

  /** Tokens without placeholders print as they were spelled. */
  lemma {:induction false} FillWithoutHoles(tokens: seq<Token>, matches: seq<string>, k: nat)
    requires Holes(tokens) == 0
    ensures Fill(tokens, matches, k) == Source(tokens)
  {
    if tokens != [] {
      FillWithoutHoles(tokens[1..], matches, k);
    }
  }

  /** Text without unescaped `$` passes through unchanged: ordinary characters,
      newlines and escaped `\$` alike, whatever the match list. */
  lemma PassThrough(content: string, matches: seq<string>, k: nat)
    requires Placeholders(content) == 0
    ensures Expand(content, matches, k) == content
  {
    FillWithoutHoles(Tokenize(content), matches, k);
    SourceOfTokenize(content);
  }

  lemma {:induction false} FillWithoutMatches(tokens: seq<Token>, k: nat)
    ensures |Fill(tokens, [], k)| + Holes(tokens) == |Source(tokens)|
  {
    if tokens != [] {
      FillWithoutMatches(tokens[1..], k + Used(tokens[0]));
    }
  }

  /** The tokens other than placeholders, in order. */
  function DropHoles(tokens: seq<Token>): seq<Token> {
    if tokens == [] then []
    else if tokens[0].Placeholder? then DropHoles(tokens[1..])
    else [tokens[0]] + DropHoles(tokens[1..])
  }

  lemma {:induction false} FillEmptyIsDropHoles(tokens: seq<Token>, k: nat)
    ensures Fill(tokens, [], k) == Source(DropHoles(tokens))
  {
    if tokens != [] {
      var t, rest := tokens[0], tokens[1..];
      FillEmptyIsDropHoles(rest, k + Used(t));
      if !t.Placeholder? {
        var d := DropHoles(rest);
        assert ([t] + d)[0] == t && ([t] + d)[1..] == d;
        assert TokenText(t, [], k) == Spelling(t);
      }
    }
  }

  /** With no matches every unescaped `$` is removed and nothing else is: the
      output spells out the template's tokens with the placeholders taken out,
      so it is shorter than the template by exactly the number of placeholders. */
  lemma EmptyMatchesRemovePlaceholders(content: string, k: nat)
    ensures Expand(content, [], k) == Source(DropHoles(Tokenize(content)))
    ensures |Expand(content, [], k)| == |content| - Placeholders(content)
  {
    FillEmptyIsDropHoles(Tokenize(content), k);
    FillWithoutMatches(Tokenize(content), k);
    SourceOfTokenize(content);
  }

  lemma {:induction false} FillExhausted(tokens: seq<Token>, matches: seq<string>, k: nat, j: nat)
    requires |matches| <= k
    ensures Fill(tokens, matches, k) == Fill(tokens, [], j)
  {
    if tokens != [] {
      FillExhausted(tokens[1..], matches, k + Used(tokens[0]), j + Used(tokens[0]));
    }
  }

  /** Once the match list is used up, the remaining placeholders are dropped:
      the output is what an empty match list gives. */
  lemma ExhaustedMatchesDropPlaceholders(content: string, matches: seq<string>, k: nat)
    requires |matches| <= k
    ensures Expand(content, matches, k) == Expand(content, [], 0)
  {
    FillExhausted(Tokenize(content), matches, k, 0);
  }

  lemma {:induction false} FillSurplus(tokens: seq<Token>, matches: seq<string>, extra: seq<string>, k: nat)
    requires k + Holes(tokens) <= |matches|
    ensures Fill(tokens, matches + extra, k) == Fill(tokens, matches, k)
  {
    if tokens != [] {
      FillSurplus(tokens[1..], matches, extra, k + Used(tokens[0]));
    }
  }

  /** Matches beyond those the placeholders consume are ignored. */
  lemma SurplusMatchesIgnored(content: string, matches: seq<string>, extra: seq<string>, k: nat)
    requires k + Placeholders(content) <= |matches|
    ensures Expand(content, matches + extra, k) == Expand(content, matches, k)
  {
    FillSurplus(Tokenize(content), matches, extra, k);
  }

  /** A lone `$`, and a lone `\$`. */
  lemma Singles(matches: seq<string>, k: nat)
    ensures Expand("$", matches, k) == MatchAt(matches, k) && Placeholders("$") == 1
    ensures Expand("\\$", matches, k) == "\\$" && Placeholders("\\$") == 0
  {
    var hole: seq<Token>, escaped: seq<Token> := [Placeholder], [EscapedDollar];
    assert "$"[1..] == [] && "\\$"[2..] == [];
    assert Tokenize("$") == hole && Tokenize("\\$") == escaped;
    assert hole[1..] == [] && escaped[1..] == [];
    assert Fill(hole, matches, k) == MatchAt(matches, k) + "";
    assert Fill(escaped, matches, k) == "\\$" + "";
  }

  /** The placeholder that follows `k` earlier placeholders receives `matches[k]`
      (the k+1-th placeholder receives the k+1-th match), or nothing when the list is too short. */
  lemma NthPlaceholder(a: string, b: string, matches: seq<string>)
    requires NoTrailingBackslash(a)
    ensures Expand(a + "$" + b, matches, 0)
         == Expand(a, matches, 0) + MatchAt(matches, Placeholders(a)) + Expand(b, matches, Placeholders(a) + 1)
  {
    ExpandConcat(a, "$", matches, 0);
    ExpandConcat(a + "$", b, matches, 0);
    Singles(matches, Placeholders(a));
  }

  /** Plain text has no placeholders, does not end in a backslash and prints as it stands. */
  lemma {:induction false} PlainText(s: string, matches: seq<string>, k: nat)
    requires Plain(s)
    ensures Placeholders(s) == 0 && NoTrailingBackslash(s) && Expand(s, matches, k) == s
    decreases |s|
  {
    if s != [] {
      assert Plain(s[1..]) by {
        forall i | 0 <= i < |s[1..]| ensures s[1..][i] != '$' && s[1..][i] != '\\' {
          assert s[1..][i] == s[i + 1];
        }
      }
      PlainText(s[1..], matches, k);
      assert Tokenize(s) == [Literal(s[0])] + Tokenize(s[1..]);
      PassThrough(s, matches, k);
    }
  }

  /** A placeholder takes the current match and the rest continues with the next. */
  lemma HoleThen(b: string, matches: seq<string>, k: nat)
    ensures Expand("$" + b, matches, k) == MatchAt(matches, k) + Expand(b, matches, k + 1)
  {
    ExpandConcat("$", b, matches, k);
    Singles(matches, k);
  }

  /** Plain text, then a placeholder, then the rest. */
  lemma TextThenHole(a: string, b: string, matches: seq<string>, k: nat)
    requires Plain(a)
    ensures Expand(a + ("$" + b), matches, k) == a + (MatchAt(matches, k) + Expand(b, matches, k + 1))
  {
    PlainText(a, matches, k);
    ExpandConcat(a, "$" + b, matches, k);
    HoleThen(b, matches, k);
  }

  /** Plain text, then an escaped dollar, then the rest: the escape uses no match. */
  lemma TextThenEscapedDollar(a: string, b: string, matches: seq<string>, k: nat)
    requires Plain(a)
    ensures Expand(a + ("\\$" + b), matches, k) == a + ("\\$" + Expand(b, matches, k))
  {
    PlainText(a, matches, k);
    ExpandConcat(a, "\\$" + b, matches, k);
    ExpandConcat("\\$", b, matches, k);
    Singles(matches, k);
  }

  // ---------------------------------------------------------------------------
  // The shapes of the six asserted rounds of the vector-match test, for any
  // plain text between the placeholders
  // ---------------------------------------------------------------------------

  /** Four placeholders between plain texts take the next four matches in order. */
  lemma FourPlaceholders(x: string, y: string, z: string, w: string, u: string, matches: seq<string>)
    requires Plain(x) && Plain(y) && Plain(z) && Plain(w) && Plain(u)
    ensures Expand(x + ("$" + (y + ("$" + (z + ("$" + (w + ("$" + u))))))), matches, 0)
         == x + (MatchAt(matches, 0) + (y + (MatchAt(matches, 1) + (z + (MatchAt(matches, 2) + (w + (MatchAt(matches, 3) + u)))))))
  {
    TextThenHole(x, y + ("$" + (z + ("$" + (w + ("$" + u))))), matches, 0);
    TextThenHole(y, z + ("$" + (w + ("$" + u))), matches, 1);
    TextThenHole(z, w + ("$" + u), matches, 2);
    TextThenHole(w, u, matches, 3);
    PlainText(u, matches, 4);
  }

  /** A placeholder at the very start takes the first match. */
  lemma LeadingPlaceholder(x: string, z: string, matches: seq<string>)
    requires Plain(x) && Plain(z)
    ensures Expand("$" + (x + ("$" + z)), matches, 0) == MatchAt(matches, 0) + (x + (MatchAt(matches, 1) + z))
  {
    HoleThen(x + ("$" + z), matches, 0);
    TextThenHole(x, z, matches, 1);
    PlainText(z, matches, 2);
  }

  /** A placeholder at the very end takes the match after those of the earlier placeholders. */
  lemma TrailingPlaceholder(x: string, y: string, z: string, matches: seq<string>)
    requires Plain(x) && Plain(y) && Plain(z)
    ensures Expand(x + ("$" + (y + ("$" + (z + "$")))), matches, 0)
         == x + (MatchAt(matches, 0) + (y + (MatchAt(matches, 1) + (z + MatchAt(matches, 2)))))
  {
    TextThenHole(x, y + ("$" + (z + "$")), matches, 0);
    TextThenHole(y, z + "$", matches, 1);
    PlainText(z, matches, 2);
    ExpandConcat(z, "$", matches, 2);
    Singles(matches, 2);
  }

  /** Two adjacent placeholders take two consecutive matches; a later escaped
      dollar is copied with its backslash and uses no match. */
  lemma AdjacentThenEscaped(x: string, z: string, v: string, matches: seq<string>)
    requires Plain(x) && Plain(z) && Plain(v)
    ensures Expand(x + ("$" + ("$" + (z + ("\\$" + v)))), matches, 0)
         == x + (MatchAt(matches, 0) + (MatchAt(matches, 1) + (z + ("\\$" + v))))
  {
    TextThenHole(x, "$" + (z + ("\\$" + v)), matches, 0);
    HoleThen(z + ("\\$" + v), matches, 1);
    TextThenEscapedDollar(z, v, matches, 2);
    PlainText(v, matches, 2);
  }

  // ---------------------------------------------------------------------------
  // The six asserted rounds themselves. Templates and expected outputs are
  // written as concatenations of the test's own pieces.
  // ---------------------------------------------------------------------------

  /** Round 0: no matches, so every placeholder disappears. */
  lemma Round0NoMatches()
    ensures Expand("xxxx" + ("$" + ("yyy" + ("$" + ("zzzzz" + ("$" + ("wwww" + ("$" + "uuuu"))))))), [], 0)
         == "xxxx" + ("yyy" + ("zzzzz" + ("wwww" + "uuuu")))
  {
    FourPlaceholders("xxxx", "yyy", "zzzzz", "wwww", "uuuu", []);
  }

  /** Round 1: one match per placeholder, taken in order; the newline is kept. */
  lemma Round1ExactMatches()
    ensures Expand("xxxx" + ("$" + ("yyy" + ("$" + ("zz\nzzz" + ("$" + ("wwww" + ("$" + "uuuu"))))))),
                   ["Match1", "Match2", "Match3", "Match4"], 0)
         == "xxxx" + ("Match1" + ("yyy" + ("Match2" + ("zz\nzzz" + ("Match3" + ("wwww" + ("Match4" + "uuuu")))))))
  {
    FourPlaceholders("xxxx", "yyy", "zz\nzzz", "wwww", "uuuu", ["Match1", "Match2", "Match3", "Match4"]);
  }

  /** Round 2: one match short, so the last placeholder disappears. */
  lemma Round2TooFewMatches()
    ensures Expand("xxxx" + ("$" + ("yyy" + ("$" + ("zz\nzzz" + ("$" + ("wwww" + ("$" + "uuuu"))))))),
                   ["Match1", "Match2", "Match3"], 0)
         == "xxxx" + ("Match1" + ("yyy" + ("Match2" + ("zz\nzzz" + ("Match3" + ("wwww" + "uuuu"))))))
  {
    FourPlaceholders("xxxx", "yyy", "zz\nzzz", "wwww", "uuuu", ["Match1", "Match2", "Match3"]);
  }

  /** Round 3: a placeholder at the very start; the two surplus matches are ignored. */
  lemma Round3LeadingPlaceholder()
    ensures Expand("$" + ("xxxxyyy" + ("$" + "zz\nzzz")), ["Match1", "Match2", "Match3", "Match4"], 0)
         == "Match1" + ("xxxxyyy" + ("Match2" + "zz\nzzz"))
  {
    LeadingPlaceholder("xxxxyyy", "zz\nzzz", ["Match1", "Match2", "Match3", "Match4"]);
  }

  /** Round 4: a placeholder at the very end. */
  lemma Round4TrailingPlaceholder()
    ensures Expand("xxxx" + ("$" + ("yyy" + ("$" + ("zz\nzzzwwwwuuuu" + "$")))), ["Match1", "Match2", "Match3", "Match4"], 0)
         == "xxxx" + ("Match1" + ("yyy" + ("Match2" + ("zz\nzzzwwwwuuuu" + "Match3"))))
  {
    TrailingPlaceholder("xxxx", "yyy", "zz\nzzzwwwwuuuu", ["Match1", "Match2", "Match3", "Match4"]);
  }

  /** Round 5: two adjacent placeholders take two consecutive matches, and an
      escaped dollar is copied with its backslash without using a match. */
  lemma Round5AdjacentAndEscaped()
    ensures Expand("xxxx" + ("$" + ("$" + ("zz\nzzzwwwwuuuu" + ("\\$" + "vv")))), ["Match1", "Match2", "Match3"], 0)
         == "xxxx" + ("Match1" + ("Match2" + ("zz\nzzzwwwwuuuu" + ("\\$" + "vv"))))
  {
    AdjacentThenEscaped("xxxx", "zz\nzzzwwwwuuuu", "vv", ["Match1", "Match2", "Match3"]);
  }
}
