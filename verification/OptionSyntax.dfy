/**
 A syntax of option calls with a printer, against which the two scanners of OptionScanner are
 proved: what they answer about a printed call is read off its syntax tree.

 A regular expression is scanned as code, so only those are in the syntax that hold no quote, bracket
 or comment opener and are followed by flags or other plain code. A slash stands where JavaScript takes
 it for what it is here: a division behind a digit, a string or a list, a regular expression behind an
 operator or an opening bracket. A line comment holds no character that ends a line in JavaScript, of
 which the scanners know one. Outside the syntax are interpolated templates, which make any call
 unreadable, and JSX, methods, accessors and numeric keys.
 */
module OptionSyntax {
  import opened Prelude
  import opened OptionScanner

  // ---------- source text as pieces ----------

  datatype Unit = Plain(c: char) | Escaped(c: char)
  datatype Piece =
    | Code(c: char)
    | Divide(c: char)
    | Regex(body: string, after: string)
    | Str(quote: Quote, units: seq<Unit>)
    | LineComment(text: string)
    | BlockComment(text: string)
    | Group(open: char, inner: seq<Piece>, close: char)

  function PrintUnits(body: seq<Unit>): string {
    if body == [] then ""
    else (if body[0].Escaped? then ['\\', body[0].c] else [body[0].c]) + PrintUnits(body[1..])
  }

  function Print(ps: seq<Piece>): string
    decreases ps, 0
  {
    if ps == [] then "" else PrintOne(ps[0]) + Print(ps[1..])
  }

  function PrintOne(p: Piece): string
    decreases p, 1
  {
    match p
    case Code(c) => [c]
    case Divide(c) => ['/', c]
    case Regex(body, after) => "/" + (body + ("/" + after))
    case Str(q, body) => [QuoteChar(q)] + (PrintUnits(body) + [QuoteChar(q)])
    case LineComment(text) => "//" + (text + "\n")
    case BlockComment(text) => "/*" + (text + "*/")
    case Group(open, inner, close) => [open] + (Print(inner) + [close])
  }

  /** What a token keeps of a text: code and brackets, but no string and no comment. */
  function Visible(ps: seq<Piece>): string
    decreases ps, 0
  {
    if ps == [] then "" else VisibleOne(ps[0]) + Visible(ps[1..])
  }

  function VisibleOne(p: Piece): string
    decreases p, 1
  {
    match p
    case Code(c) => [c]
    case Divide(c) => ['/', c]
    case Regex(body, after) => "/" + (body + ("/" + after))
    case Group(open, inner, close) => [open] + (Visible(inner) + [close])
    case _ => ""
  }

  predicate PlainCode(c: char) {
    !Opening(c) && !Closing(c) && c != '/' && c != '\'' && c != '\"' && c != '`'
  }

  /** Code without a quote or bracket in which no slash opens a comment. */
  predicate Quiet(t: string) {
    && (forall c <- t :: PlainCode(c) || c == '/')
    && (forall i :: 0 <= i < |t| && t[i] == '/' ==> i + 1 < |t| && t[i + 1] != '/' && t[i + 1] != '*')
  }

  /** The body of a regular expression: no slash in it but behind a backslash, and no backslash left over. */
  predicate Unclosed(body: string) {
    body != "" ==>
      if body[0] == '\\' then |body| > 1 && Unclosed(body[2..]) else body[0] != '/' && Unclosed(body[1..])
  }

  /** Units that stay inside their string: no bare quote or backslash, no interpolation. */
  predicate OkUnits(q: Quote, body: seq<Unit>) {
    body != [] ==>
      && (body[0].Plain? ==> body[0].c != QuoteChar(q) && body[0].c != '\\')
      && !(q == Template && body[0] == Plain('$') && |body| > 1 && body[1] == Plain('{'))
      && OkUnits(q, body[1..])
  }

  /** JavaScript's line terminators, which end a line comment. */
  predicate EndsLine(c: char) { c == '\n' || c == '\r' || c as int == 0x2028 || c as int == 0x2029 }

  predicate NoBlockEnd(text: string) {
    forall i :: 0 <= i < |text| - 1 ==> !(text[i] == '*' && text[i + 1] == '/')
  }

  predicate Ok(ps: seq<Piece>)
    decreases ps, 0
  {
    ps != [] ==> OkOne(ps[0]) && Ok(ps[1..])
  }

  predicate OkOne(p: Piece)
    decreases p, 1
  {
    match p
    case Code(c) => PlainCode(c)
    case Divide(c) => PlainCode(c) && c != '*' && c != ',' && c != ':'
    case Regex(body, after) => body != "" && Unclosed(body) && '/' !in after && Quiet("/" + (body + ("/" + after)))
    case Str(q, body) => OkUnits(q, body)
    case LineComment(text) => forall c <- text :: !EndsLine(c)
    case BlockComment(text) => NoBlockEnd(text)
    case Group(open, inner, close) => Opening(open) && Closing(close) && Ok(inner)
  }

  /** A string or comment that both scanners skip: to them a line comment goes on to the newline. */
  predicate Skippable(p: Piece) {
    match p
    case Str(q, body) => OkUnits(q, body)
    case LineComment(text) => '\n' !in text
    case BlockComment(text) => NoBlockEnd(text)
    case _ => false
  }

  // ---------- what a slash means ----------

  /** What stands before a piece: the end of an operand, an operator, or something that may be either. */
  datatype Position = BehindOperand | BehindOperator | Unsure

  function BehindChar(c: char, before: Position): Position {
    if c == ' ' || c == '\n' then before
    else if '0' <= c <= '9' then BehindOperand
    else if c in "=!&|?<*%^~:,;" then BehindOperator
    else Unsure
  }

  function Behind(p: Piece, before: Position): Position {
    match p
    case Code(c) => BehindChar(c, before)
    case Divide(c) => BehindChar(c, BehindOperator)
    case Regex(_, _) => Unsure
    case Str(_, _) => BehindOperand
    case LineComment(_) => before
    case BlockComment(_) => before
    case Group(_, _, close) => if close == ']' then BehindOperand else Unsure
  }

  /** Divisions stand behind operands and regular expressions behind operators, at every depth. */
  predicate TrueSlashes(ps: seq<Piece>, before: Position)
    decreases ps, 0
  {
    ps != [] ==> TrueSlash(ps[0], before) && TrueSlashes(ps[1..], Behind(ps[0], before))
  }

  predicate TrueSlash(p: Piece, before: Position)
    decreases p, 1
  {
    match p
    case Divide(_) => before == BehindOperand
    case Regex(_, _) => before == BehindOperator
    case Group(_, inner, _) => TrueSlashes(inner, BehindOperator)
    case _ => true
  }

  lemma {:induction false} NoSlashes(ps: seq<Piece>, before: Position)
    requires forall p <- ps :: !p.Divide? && !p.Regex? && !p.Group?
    ensures TrueSlashes(ps, before)
  {
    if ps != [] {
      NoSlashes(ps[1..], Behind(ps[0], before));
    }
  }

  lemma {:induction false} PrintAppend(a: seq<Piece>, b: seq<Piece>)
    ensures Print(a + b) == Print(a) + Print(b)
    ensures Visible(a + b) == Visible(a) + Visible(b)
    ensures Ok(a + b) <==> Ok(a) && Ok(b)
    decreases |a|
  {
    hide PrintOne, VisibleOne, OkOne;
    if a == [] {
      assert a + b == b;
    } else {
      hide Print, Visible, Ok;
      PrintAppend(a[1..], b);
      PrintCons(a[0], a[1..] + b);
      PrintCons(a[0], a[1..]);
      assert a + b == [a[0]] + (a[1..] + b) && a == [a[0]] + a[1..];
    }
  }

  lemma {:induction false} PrintCons(p: Piece, ps: seq<Piece>)
    ensures Print([p] + ps) == PrintOne(p) + Print(ps)
    ensures Visible([p] + ps) == VisibleOne(p) + Visible(ps)
    ensures Ok([p] + ps) <==> OkOne(p) && Ok(ps)
  {
    hide PrintOne, VisibleOne, OkOne;
    assert ([p] + ps)[1..] == ps;
  }

  // ---------- leaving a string or a comment ----------

  /** How many characters a text takes to be back in code; None when it ends or interpolates first. */
  function Leave(s: string, mode: Mode): Option<nat>
    decreases |s|
  {
    if mode == InCode then Some(0)
    else if s == [] || Interpolates(s, mode) then None
    else Shift(Leave(Drop(s, NonCodeMove(s, mode).0), NonCodeMove(s, mode).1), NonCodeMove(s, mode).0)
  }

  lemma {:induction false} DropOfDrop(s: string, m: nat, n: nat)
    ensures Drop(Drop(s, m), n) == Drop(s, m + n)
  {
  }

  lemma {:induction false} BalancedGo(s: string, depth: nat, mode: Mode)
    requires s != [] && BracketMove(s, depth, mode).Go?
    ensures var m := BracketMove(s, depth, mode);
            Balanced(s, depth, mode) == Shift(Balanced(Drop(s, m.skip), m.depth, m.mode), m.skip)
  {
    hide BracketMove;
  }

  /** The first scanner leaves it without changing its depth. */
  lemma {:induction false} BalancedLeaves(s: string, depth: nat, mode: Mode)
    requires Leave(s, mode).Some?
    ensures var n := Leave(s, mode).value; Balanced(s, depth, mode) == Shift(Balanced(Drop(s, n), depth, InCode), n)
    decreases |s|
  {
    if mode != InCode {
      var (n, mode') := NonCodeMove(s, mode);
      var more := Leave(Drop(s, n), mode').value;
      BalancedGo(s, depth, mode);
      BalancedLeaves(Drop(s, n), depth, mode');
      DropOfDrop(s, n, more);
      ShiftShift(Balanced(Drop(s, n + more), depth, InCode), more, n);
      hide Balanced;
    } else {
      assert Drop(s, 0) == s;
    }
  }

  /** The second scanner leaves it without keeping anything of it. */
  lemma {:induction false} ReadLeaves(s: string, r: Reader)
    requires Leave(s, r.mode).Some?
    ensures Read(s, r) == Read(Drop(s, Leave(s, r.mode).value), r.(mode := InCode))
    decreases |s|
  {
    if r.mode != InCode {
      var (n, mode') := NonCodeMove(s, r.mode);
      ReadLeaves(Drop(s, n), r.(mode := mode'));
      DropOfDrop(s, n, Leave(Drop(s, n), mode').value);
    } else {
      assert Drop(s, 0) == s;
    }
  }

  lemma {:induction false} LeaveUnits(q: Quote, body: seq<Unit>, rest: string)
    requires OkUnits(q, body)
    ensures Leave(PrintUnits(body) + [QuoteChar(q)] + rest, InString(q)) == Some(|PrintUnits(body)| + 1)
    decreases |body|
  {
    var s := PrintUnits(body) + [QuoteChar(q)] + rest;
    if body == [] {
      assert Drop(s, 1) == rest;
      assert Leave(rest, InCode) == Some(0);
    } else {
      var n := if body[0].Escaped? then 2 else 1;
      var more := PrintUnits(body[1..]) + [QuoteChar(q)] + rest;
      assert Drop(s, n) == more;
      LeaveUnits(q, body[1..], rest);
      assert |body| > 1 ==> more[0] == if body[1].Escaped? then '\\' else body[1].c;
    }
  }

  lemma {:induction false} LeaveLine(text: string, rest: string)
    requires '\n' !in text
    ensures Leave(text + "\n" + rest, InLine) == Some(|text| + 1)
    decreases |text|
  {
    var s := text + "\n" + rest;
    if text == "" {
      assert Drop(s, 1) == rest;
      assert Leave(rest, InCode) == Some(0);
    } else {
      assert Drop(s, 1) == text[1..] + "\n" + rest;
      LeaveLine(text[1..], rest);
    }
  }

  lemma {:induction false} LeaveBlock(text: string, rest: string)
    requires NoBlockEnd(text)
    ensures Leave(text + "*/" + rest, InBlock) == Some(|text| + 2)
    decreases |text|
  {
    var s := text + "*/" + rest;
    if text == "" {
      assert Drop(s, 2) == rest;
      assert Leave(rest, InCode) == Some(0);
    } else {
      assert Drop(s, 1) == text[1..] + "*/" + rest;
      assert |text| > 1 ==> s[1] == text[1];
      LeaveBlock(text[1..], rest);
    }
  }

  /** A string or comment from its opener on: how the text after the opener leaves it. */
  lemma {:induction false} LeavePiece(p: Piece, rest: string) returns (mode: Mode, n: nat)
    requires Skippable(p)
    ensures var s := PrintOne(p) + rest;
            && OpensNonCode(s) == Some(mode) && n == OpenerLength(mode) && mode != InCode
            && n <= |PrintOne(p)|
            && Leave(Drop(s, n), mode) == Some(|PrintOne(p)| - n)
  {
    var s := PrintOne(p) + rest;
    hide OkUnits, NoBlockEnd, PrintUnits, Leave;
    match p
    case Str(q, body) =>
      mode, n := InString(q), 1;
      assert Drop(s, 1) == PrintUnits(body) + [QuoteChar(q)] + rest;
      LeaveUnits(q, body, rest);
    case LineComment(text) =>
      mode, n := InLine, 2;
      assert Drop(s, 2) == text + "\n" + rest;
      LeaveLine(text, rest);
    case BlockComment(text) =>
      mode, n := InBlock, 2;
      assert Drop(s, 2) == text + "*/" + rest;
      LeaveBlock(text, rest);
    case _ =>
  }

  // ---------- the first scanner passes over pieces ----------

  lemma {:induction false} BalancedPlain(c: char, rest: string, depth: nat)
    requires PlainCode(c)
    ensures Balanced([c] + rest, depth, InCode) == Shift(Balanced(rest, depth, InCode), 1)
  {
    assert Drop([c] + rest, 1) == rest;
  }

  lemma {:induction false} BalancedOpen(c: char, rest: string, depth: nat)
    requires Opening(c)
    ensures Balanced([c] + rest, depth, InCode) == Shift(Balanced(rest, depth + 1, InCode), 1)
  {
    assert Drop([c] + rest, 1) == rest;
  }

  lemma {:induction false} BalancedClose(c: char, rest: string, depth: nat)
    requires Closing(c) && depth >= 1
    ensures Balanced([c] + rest, depth, InCode)
         == if depth == 1 then Some(0) else Shift(Balanced(rest, depth - 1, InCode), 1)
  {
    assert Drop([c] + rest, 1) == rest;
  }

  lemma {:induction false} BalancedSlash(c: char, rest: string, depth: nat)
    requires PlainCode(c) && c != '*'
    ensures Balanced(['/', c] + rest, depth, InCode) == Shift(Balanced(rest, depth, InCode), 2)
  {
    hide Balanced;
    var s := ['/', c] + rest;
    BalancedGo(s, depth, InCode);
    assert Drop(s, 1) == [c] + rest;
    BalancedPlain(c, rest, depth);
    ShiftShift(Balanced(rest, depth, InCode), 1, 1);
  }

  lemma {:induction false} QuietTail(t: string)
    requires t != "" && Quiet(t)
    ensures if t[0] == '/' then |t| > 1 && PlainCode(t[1]) && t[1] != '*' && Quiet(t[2..])
            else PlainCode(t[0]) && Quiet(t[1..])
  {
    assert t[0] in t;
    var n := if t[0] == '/' then 2 else 1;
    assert n == 2 ==> t[1] in t;
    assert forall c <- t[n..] :: c in t;
    assert forall i :: 0 <= i < |t[n..]| ==> t[n..][i] == t[n + i];
  }

  lemma {:induction false} BalancedQuiet(t: string, rest: string, depth: nat)
    requires Quiet(t)
    ensures Balanced(t + rest, depth, InCode) == Shift(Balanced(rest, depth, InCode), |t|)
    decreases |t|
  {
    hide Balanced, Quiet;
    if t == "" {
      assert t + rest == rest;
    } else {
      QuietTail(t);
      var n := if t[0] == '/' then 2 else 1;
      BalancedQuiet(t[n..], rest, depth);
      ShiftShift(Balanced(rest, depth, InCode), |t| - n, n);
      if t[0] == '/' {
        assert t + rest == ['/', t[1]] + (t[2..] + rest);
        BalancedSlash(t[1], t[2..] + rest, depth);
      } else {
        assert t + rest == [t[0]] + (t[1..] + rest);
        BalancedPlain(t[0], t[1..] + rest, depth);
      }
    }
  }

  lemma {:induction false} BalancedNonCode(p: Piece, rest: string, depth: nat)
    requires Skippable(p)
    ensures Balanced(PrintOne(p) + rest, depth, InCode) == Shift(Balanced(rest, depth, InCode), |PrintOne(p)|)
  {
    hide Balanced, Skippable, Leave;
    var s, length := PrintOne(p) + rest, |PrintOne(p)|;
    var mode, n := LeavePiece(p, rest);
    assert BracketMove(s, depth, InCode) == Go(n, depth, mode);
    hide PrintOne, BracketMove;
    BalancedGo(s, depth, InCode);
    BalancedLeaves(Drop(s, n), depth, mode);
    DropOfDrop(s, n, length - n);
    assert Drop(s, length) == rest;
    ShiftShift(Balanced(rest, depth, InCode), length - n, n);
  }

  lemma {:induction false} BalancedGroup(p: Piece, rest: string, depth: nat)
    requires p.Group? && OkOne(p) && depth >= 1
    ensures Balanced(PrintOne(p) + rest, depth, InCode) == Shift(Balanced(rest, depth, InCode), |PrintOne(p)|)
    decreases p, 1
  {
    hide Balanced;
    var tail := [p.close] + rest;
    assert PrintOne(p) + rest == [p.open] + (Print(p.inner) + tail);
    BalancedOpen(p.open, Print(p.inner) + tail, depth);
    BalancedPieces(p.inner, tail, depth + 1);
    BalancedClose(p.close, rest, depth + 1);
    hide Print;
    ShiftShift(Balanced(rest, depth, InCode), 1, |Print(p.inner)|);
    ShiftShift(Balanced(rest, depth, InCode), 1 + |Print(p.inner)|, 1);
  }

  lemma {:induction false} BalancedPiece(p: Piece, rest: string, depth: nat)
    requires OkOne(p) && depth >= 1
    ensures Balanced(PrintOne(p) + rest, depth, InCode) == Shift(Balanced(rest, depth, InCode), |PrintOne(p)|)
    decreases p, 2
  {
    hide Balanced;
    match p
    case Code(c) => BalancedPlain(c, rest, depth);
    case Divide(c) => BalancedSlash(c, rest, depth);
    case Regex(_, _) => BalancedQuiet(PrintOne(p), rest, depth);
    case Group(_, _, _) => BalancedGroup(p, rest, depth);
    case _ => BalancedNonCode(p, rest, depth);
  }

  lemma {:induction false} BalancedPieces(ps: seq<Piece>, rest: string, depth: nat)
    requires Ok(ps) && depth >= 1
    ensures Balanced(Print(ps) + rest, depth, InCode) == Shift(Balanced(rest, depth, InCode), |Print(ps)|)
    decreases ps, 0
  {
    hide Balanced;
    if ps == [] {
      assert Print(ps) + rest == rest;
    } else {
      assert Print(ps) + rest == PrintOne(ps[0]) + (Print(ps[1..]) + rest);
      BalancedPiece(ps[0], Print(ps[1..]) + rest, depth);
      BalancedPieces(ps[1..], rest, depth);
    }
  }

  /** The arguments of a printed call are found, whatever follows the call. */
  lemma {:induction false} ArgumentsFound(inner: seq<Piece>, suffix: string)
    requires Ok(inner)
    ensures ArgumentsOf("(" + Print(inner) + ")" + suffix) == Some(Print(inner))
  {
    hide Balanced, Print;
    var s := "(" + Print(inner) + ")" + suffix;
    assert s == ['('] + (Print(inner) + ([')'] + suffix));
    BalancedOpen('(', Print(inner) + ([')'] + suffix), 0);
    BalancedPieces(inner, [')'] + suffix, 1);
    BalancedClose(')', suffix, 1);
    ShiftShift(Some(0), |Print(inner)|, 1);
    assert s[1..|Print(inner)| + 1] == Print(inner);
  }

  // ---------- the second scanner passes over pieces ----------

  /** The reader after a stretch of code that ends no token. */
  function Past(r: Reader, visible: string): Reader {
    if r.inValue then r else r.(token := r.token + visible)
  }

  /** The scanner sees a comma or colon of code in a piece. */
  predicate Splits(p: Piece, c: char) { p == Code(c) || (p.Regex? && c in PrintOne(p)) }

  /** At the top level a comma ends the entry, and a colon the key. */
  predicate EndsNothing(r: Reader, p: Piece) {
    r.depth == 0 ==> !Splits(p, ',') && (Splits(p, ':') ==> r.inValue)
  }

  predicate EndsNothingIn(r: Reader, ps: seq<Piece>) {
    forall p <- ps :: EndsNothing(r, p)
  }

  lemma {:induction false} ReadChar(c: char, rest: string, r: Reader)
    requires r.mode == InCode && c != '/' && c != '\'' && c != '\"' && c != '`'
    ensures Read([c] + rest, r) == Read(rest, CodeChar(r, c))
  {
    assert Drop([c] + rest, 1) == rest;
  }

  lemma {:induction false} ReadSlash(c: char, rest: string, r: Reader)
    requires r.mode == InCode && PlainCode(c) && c != '*' && c != ',' && c != ':'
    ensures Read(['/', c] + rest, r) == Read(rest, Past(r, ['/', c]))
  {
    assert Drop(['/', c] + rest, 1) == [c] + rest;
    ReadChar(c, rest, CodeChar(r, '/'));
    assert r.token + ['/'] + [c] == r.token + ['/', c];
  }

  lemma {:induction false} ReadQuiet(t: string, rest: string, r: Reader)
    requires Quiet(t) && r.mode == InCode && (r.depth == 0 ==> ',' !in t && (':' in t ==> r.inValue))
    ensures Read(t + rest, r) == Read(rest, Past(r, t))
    decreases |t|
  {
    hide Read, Quiet, Flush;
    if t == "" {
      assert t + rest == rest && r.token + "" == r.token;
    } else {
      QuietTail(t);
      assert t[0] in t && forall c <- t[1..] :: c in t;
      assert t + rest == [t[0]] + (t[1..] + rest);
      if t[0] == '/' {
        ReadSlashThen(t, rest, r);
      } else {
        ReadChar(t[0], t[1..] + rest, r);
        ReadQuiet(t[1..], rest, Past(r, [t[0]]));
        assert r.token + [t[0]] + t[1..] == r.token + t;
      }
    }
  }

  lemma {:induction false} ReadSlashThen(t: string, rest: string, r: Reader)
    requires |t| > 1 && t[0] == '/' && PlainCode(t[1]) && t[1] != '*' && Quiet(t[2..])
    requires r.mode == InCode && (r.depth == 0 ==> ',' !in t && (':' in t ==> r.inValue))
    ensures Read(t + rest, r) == Read(rest, Past(r, t))
    decreases |t|, 0
  {
    hide Read, Quiet, Flush;
    assert t[1] in t && forall c <- t[2..] :: c in t;
    assert t + rest == ['/'] + ([t[1]] + (t[2..] + rest));
    SlashIsCode(t[1], t[2..] + rest, r);
    ReadChar(t[1], t[2..] + rest, Past(r, "/"));
    ReadQuiet(t[2..], rest, Past(r, ['/', t[1]]));
    assert r.token + "/" + [t[1]] == r.token + ['/', t[1]];
    assert r.token + ['/', t[1]] + t[2..] == r.token + t;
  }

  lemma {:induction false} SlashIsCode(c: char, rest: string, r: Reader)
    requires r.mode == InCode && PlainCode(c) && c != '*'
    ensures Read(['/'] + ([c] + rest), r) == Read([c] + rest, Past(r, "/"))
  {
    assert Drop(['/'] + ([c] + rest), 1) == [c] + rest;
  }

  lemma {:induction false} ReadNonCode(p: Piece, rest: string, r: Reader)
    requires Skippable(p) && r.mode == InCode
    ensures Read(PrintOne(p) + rest, r) == Read(rest, r)
  {
    var s := PrintOne(p) + rest;
    var mode, n := LeavePiece(p, rest);
    assert KeyMove(s, r) == (n, r.(mode := mode));
    ReadLeaves(Drop(s, n), r.(mode := mode));
    DropOfDrop(s, n, |PrintOne(p)| - n);
    assert Drop(s, |PrintOne(p)|) == rest;
  }

  lemma {:induction false} GroupShape(p: Piece, rest: string)
    requires p.Group? && OkOne(p)
    ensures PrintOne(p) + rest == [p.open] + (Print(p.inner) + ([p.close] + rest))
    ensures VisibleOne(p) == [p.open] + Visible(p.inner) + [p.close]
    ensures Opening(p.open) && Closing(p.close) && Ok(p.inner)
  {
    hide Print, Visible, Ok;
  }

  lemma {:induction false} ReadBracket(c: char, rest: string, r: Reader)
    requires r.mode == InCode && (Opening(c) || Closing(c))
    ensures Read([c] + rest, r) == Read(rest, Past(r, [c]).(depth := r.depth + if Opening(c) then 1 else -1))
  {
    hide Read;
    ReadChar(c, rest, r);
  }

  lemma {:induction false} ReadGroup(p: Piece, rest: string, r: Reader)
    requires OkOne(p) && p.Group? && r.mode == InCode && r.depth >= 0
    ensures Read(PrintOne(p) + rest, r) == Read(rest, Past(r, VisibleOne(p)))
    decreases p, 1
  {
    hide Read, PrintOne, VisibleOne, OkOne, Print, Visible, Ok, Opening, Closing;
    GroupShape(p, rest);
    ReadBracket(p.open, Print(p.inner) + ([p.close] + rest), r);
    var inside := Past(r, [p.open]).(depth := r.depth + 1);
    ReadPieces(p.inner, [p.close] + rest, inside);
    ReadBracket(p.close, rest, Past(inside, Visible(p.inner)));
    assert r.token + [p.open] + Visible(p.inner) + [p.close] == r.token + VisibleOne(p);
    BracketsDiffer(p.close);
  }

  lemma {:induction false} BracketsDiffer(c: char)
    ensures Closing(c) ==> !Opening(c)
  {
  }

  lemma {:induction false} ReadPiece(p: Piece, rest: string, r: Reader)
    requires OkOne(p) && r.mode == InCode && r.depth >= 0 && EndsNothing(r, p)
    ensures Read(PrintOne(p) + rest, r) == Read(rest, Past(r, VisibleOne(p)))
    decreases p, 2
  {
    hide Read, Flush;
    match p
    case Code(c) => ReadChar(c, rest, r);
    case Divide(c) => ReadSlash(c, rest, r);
    case Regex(_, _) => ReadQuiet(PrintOne(p), rest, r);
    case Group(_, _, _) => ReadGroup(p, rest, r);
    case _ =>
      ReadNonCode(p, rest, r);
      assert r.token + "" == r.token;
  }

  lemma {:induction false} ReadPieces(ps: seq<Piece>, rest: string, r: Reader)
    requires Ok(ps) && r.mode == InCode && r.depth >= 0 && EndsNothingIn(r, ps)
    ensures Read(Print(ps) + rest, r) == Read(rest, Past(r, Visible(ps)))
    decreases ps, 0
  {
    hide Read, PrintOne, VisibleOne, OkOne;
    if ps == [] {
      assert Print(ps) + rest == rest && r.token + "" == r.token;
    } else {
      var p, more, next := ps[0], ps[1..], Past(r, VisibleOne(ps[0]));
      PrintCons(p, more);
      assert ps == [p] + more;
      assert forall x <- more :: x in ps && EndsNothing(r, x);
      hide Print, Visible, Ok;
      assert Print(ps) + rest == PrintOne(p) + (Print(more) + rest);
      ReadPiece(p, Print(more) + rest, r);
      ReadPieces(more, rest, next);
      assert r.token + VisibleOne(p) + Visible(more) == r.token + Visible(ps);
    }
  }
}
