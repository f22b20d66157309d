/**
 Option calls with more behind the object literal: further arguments or operands that are literals
 themselves. The reader asks only whether the argument text starts and ends with a brace, and so reads
 on behind the first literal as if it were still inside: the first entry of every further literal is
 taken for a part of the value before it.
 */
module OptionOperands {
  import opened Prelude
  import opened OptionScanner
  import opened OptionSyntax
  import opened OptionCalls

  /** A further literal and what stands before it. */
  datatype Operand = Operand(sep: seq<Piece>, entries: seq<Entry>, trailing: bool, tail: seq<Piece>)
  datatype Operands = Operands(first: Call, more: seq<Operand>)

  /** Code, strings and comments, and groups without a comma of their own. */
  predicate OkSep(ps: seq<Piece>) {
    Ok(ps) && forall p <- ps :: p.Group? ==> forall q <- p.inner :: !Splits(q, ',')
  }

  predicate OkOperand(o: Operand) {
    && OkSep(o.sep) && Trivia(o.tail) && (forall e <- o.entries :: OkEntry(e))
    && TrueSlashes(o.sep, Unsure) && TrueSlashes(BodyOf(o), BehindOperator)
  }

  predicate OkOperands(a: Operands) { OkCall(a.first) && forall o <- a.more :: OkOperand(o) }

  function BodyOf(o: Operand): seq<Piece> { Body(o.entries, o.trailing, o.tail) }

  function FirstBody(c: Call): seq<Piece> { Body(c.entries, c.trailing, c.tail) }

  function Further(more: seq<Operand>): seq<Piece> {
    if more == [] then [] else more[0].sep + [Group('{', BodyOf(more[0]), '}')] + Further(more[1..])
  }

  function Pieces(a: Operands): seq<Piece> {
    Codes(a.first.before) + [Group('{', FirstBody(a.first), '}')] + Further(a.more) + Codes(a.first.after)
  }

  function PrintOperands(a: Operands): string { "(" + Print(Pieces(a)) + ")" }

  // ---------- the text between the outer braces ----------

  function Upto(o: Operand): string { Print(o.sep) + ("{" + Print(BodyOf(o))) }

  /** The further literals without the last brace. */
  function Inside(more: seq<Operand>): string
    requires more != []
  {
    if |more| == 1 then Upto(more[0]) else Upto(more[0]) + ("}" + Inside(more[1..]))
  }

  function Inner(a: Operands): string {
    Print(FirstBody(a.first)) + if a.more == [] then "" else "}" + Inside(a.more)
  }

  lemma {:induction false} FurtherPrints(more: seq<Operand>)
    requires forall o <- more :: OkOperand(o)
    ensures Print(Further(more)) == if more == [] then "" else Inside(more) + "}"
    ensures Ok(Further(more))
  {
    hide Print, Ok, Trivia, OkEntry, Body;
    if more == [] {
      NothingPrints();
    } else {
      var o := more[0];
      assert OkOperand(o);
      FurtherPrints(more[1..]);
      BodyIsOk(o.entries, o.trailing, o.tail);
      PrintThree(o.sep, [Group('{', BodyOf(o), '}')], Further(more[1..]));
      GroupPrints(BodyOf(o));
      assert Print(Further(more)) == Upto(o) + ("}" + Print(Further(more[1..])));
    }
  }

  lemma {:induction false} NothingPrints()
    ensures Print([]) == "" && Ok([])
  {
  }

  lemma {:induction false} PiecesTrim(a: Operands)
    requires OkOperands(a)
    ensures Ok(Pieces(a))
    ensures Trim(Print(Pieces(a))) == "{" + Inner(a) + "}"
  {
    hide Trim, Print, Ok, OkEntry, OkOperand, Body, Inside, Further, Blank, IsSpace;
    var c := a.first;
    BodyIsOk(c.entries, c.trailing, c.tail);
    FurtherPrints(a.more);
    PrintPadded(c, Further(a.more));
    assert "{" + Print(FirstBody(c)) + "}" + Print(Further(a.more)) == "{" + Inner(a) + "}";
    BracesAreVisible();
    TrimPadded(c.before, "{" + Inner(a) + "}", c.after);
  }

  lemma {:induction false} BracesAreVisible()
    ensures !IsSpace('{') && !IsSpace('}')
  {
  }

  lemma {:induction false} PrintPadded(c: Call, more: seq<Piece>)
    requires Blank(c.before) && Blank(c.after)
    ensures var pieces := Codes(c.before) + [Group('{', FirstBody(c), '}')] + more + Codes(c.after);
            && Print(pieces) == c.before + ("{" + Print(FirstBody(c)) + "}" + Print(more)) + c.after
            && (Ok(FirstBody(c)) && Ok(more) ==> Ok(pieces))
  {
    hide Print, Ok, Body, Blank;
    PrintThree(Codes(c.before), [Group('{', FirstBody(c), '}')], more);
    PrintAppend(Codes(c.before) + [Group('{', FirstBody(c), '}')] + more, Codes(c.after));
    BlankPrints(c.before);
    BlankPrints(c.after);
    GroupPrints(FirstBody(c));
  }

  // ---------- where a literal leaves the reader ----------

  /** The reader behind the entries of a literal that it reads from its start. */
  function EndOf(entries: seq<Entry>, trailing: bool, tail: seq<Piece>, keys: seq<string>): Reader {
    if entries == [] then At(keys).(token := Visible(tail))
    else
      var e := entries[0];
      if |entries| > 1 || trailing then EndOf(entries[1..], trailing, tail, keys + Kept(Name(e)))
      else if e.Pair? then InValue(keys + Kept(Name(e)))
      else At(keys).(token := Visible(Head(e)) + Visible(tail))
  }

  lemma {:induction false} ReadTrivia(tail: seq<Piece>, rest: string, r: Reader)
    requires Trivia(tail) && r.depth == 0 && r.mode == InCode
    ensures Read(Print(tail) + rest, r) == Read(rest, Past(r, Visible(tail)))
  {
    hide Read;
    assert forall p <- tail :: EndsNothing(r, p) by {
      assert forall c: char | IsSpace(c) :: c != ',' && c != ':';
    }
    ReadPieces(tail, rest, r);
  }

  lemma {:induction false} ReadBodyTo(
    entries: seq<Entry>, trailing: bool, tail: seq<Piece>, rest: string, keys: seq<string>)
    requires Trivia(tail) && forall e <- entries :: OkEntry(e)
    ensures Read(Print(Body(entries, trailing, tail)) + rest, At(keys))
         == Read(rest, EndOf(entries, trailing, tail, keys))
    decreases |entries|
  {
    hide Read, Print, Name, Visible, OkEntry, EntryPieces, Trivia;
    if entries == [] {
      ReadTrivia(tail, rest, At(keys));
      assert "" + Visible(tail) == Visible(tail);
    } else {
      var e := entries[0];
      if |entries| > 1 || trailing {
        var more := Body(entries[1..], trailing, tail);
        PrintThree(EntryPieces(e), [Code(',')], more);
        PrintColon();
        assert Print(Body(entries, trailing, tail)) + rest == Print(EntryPieces(e)) + ([','] + (Print(more) + rest));
        ReadEntryAndComma(e, Print(more) + rest, keys);
        ReadBodyTo(entries[1..], trailing, tail, rest, keys + Kept(Name(e)));
      } else {
        PrintAppend(EntryPieces(e), tail);
        assert Print(Body(entries, trailing, tail)) + rest == Print(EntryPieces(e)) + (Print(tail) + rest);
        ReadEntry(e, Print(tail) + rest, keys);
        ReadTrivia(tail, rest, if e.Pair? then InValue(keys + Kept(Name(e))) else At(keys).(token := Visible(Head(e))));
      }
    }
  }

  /** The literal ends inside a value: its last entry has one, and no comma follows. */
  predicate EndsInValue(entries: seq<Entry>, trailing: bool) {
    entries != [] && !trailing && entries[|entries| - 1].Pair?
  }

  lemma {:induction false} EndOfMeans(entries: seq<Entry>, trailing: bool, tail: seq<Piece>, keys: seq<string>)
    requires Trivia(tail) && forall e <- entries :: OkEntry(e)
    ensures var r := EndOf(entries, trailing, tail, keys);
            && r.depth == 0 && r.mode == InCode
            && (r.inValue <==> EndsInValue(entries, trailing))
            && (r.inValue ==> r == InValue(keys + Names(entries)))
            && Finish(r) == keys + Names(entries)
  {
    EndOfShape(entries, trailing, tail, keys);
    hide Read, Print, Body;
    ReadBody(entries, trailing, tail, keys);
    ReadBodyTo(entries, trailing, tail, "", keys);
    assert Print(Body(entries, trailing, tail)) + "" == Print(Body(entries, trailing, tail));
    ReadEmpty(EndOf(entries, trailing, tail, keys));
  }

  lemma {:induction false} EndOfShape(entries: seq<Entry>, trailing: bool, tail: seq<Piece>, keys: seq<string>)
    ensures var r := EndOf(entries, trailing, tail, keys);
            && r.depth == 0 && r.mode == InCode
            && (r.inValue <==> EndsInValue(entries, trailing))
            && (r.inValue ==> r == InValue(keys + Names(entries)))
    decreases |entries|
  {
    hide Name, Visible, Head;
    if entries != [] {
      var e := entries[0];
      if |entries| > 1 || trailing {
        EndOfShape(entries[1..], trailing, tail, keys + Kept(Name(e)));
        assert keys + Kept(Name(e)) + Names(entries[1..]) == keys + Names(entries);
      } else {
        assert entries[1..] == [] && Names([]) == [];
        assert Kept(Name(e)) + [] == Kept(Name(e));
      }
    }
  }

  /** And behind those of a literal that it takes for a part of a value. */
  function EndIn(o: Operand, keys: seq<string>): Reader {
    if o.entries == [] || (|o.entries| == 1 && !o.trailing) then InValue(keys)
    else EndOf(o.entries[1..], o.trailing, o.tail, keys)
  }

  lemma {:induction false} EntryHasNoComma(e: Entry)
    requires OkEntry(e)
    ensures Ok(EntryPieces(e)) && forall p <- EntryPieces(e) :: !Splits(p, ',')
  {
    EntryIsOk(e);
    HeadEndsNoKey(e);
    assert !Splits(Code(':'), ',');
  }

  lemma {:induction false} ReadBodyIn(o: Operand, rest: string, keys: seq<string>)
    requires OkOperand(o)
    ensures Read(Print(BodyOf(o)) + rest, InValue(keys)) == Read(rest, EndIn(o, keys))
  {
    hide Read, Print, Visible, OkEntry, EntryPieces, Trivia, EndOf, Ok;
    if o.entries == [] {
      ReadTrivia(o.tail, rest, InValue(keys));
    } else {
      var e := o.entries[0];
      EntryHasNoComma(e);
      if |o.entries| == 1 && !o.trailing {
        PrintAppend(EntryPieces(e), o.tail);
        assert Print(BodyOf(o)) + rest == Print(EntryPieces(e)) + (Print(o.tail) + rest);
        ReadPieces(EntryPieces(e), Print(o.tail) + rest, InValue(keys));
        ReadTrivia(o.tail, rest, InValue(keys));
      } else {
        var more := Body(o.entries[1..], o.trailing, o.tail);
        PrintThree(EntryPieces(e), [Code(',')], more);
        PrintColon();
        assert Print(BodyOf(o)) + rest == Print(EntryPieces(e)) + ([','] + (Print(more) + rest));
        ReadPieces(EntryPieces(e), [','] + (Print(more) + rest), InValue(keys));
        ReadChar(',', Print(more) + rest, InValue(keys));
        ReadBodyTo(o.entries[1..], o.trailing, o.tail, rest, keys);
      }
    }
  }

  // ---------- between the literals ----------

  /** The reader between two literals, still in a value. */
  function Between(keys: seq<string>): Reader { Reader(-1, InCode, true, "", keys) }

  lemma {:induction false} ReadSepPiece(p: Piece, rest: string, keys: seq<string>)
    requires OkOne(p) && (p.Group? ==> forall q <- p.inner :: !Splits(q, ','))
    ensures Read(PrintOne(p) + rest, Between(keys)) == Read(rest, Between(keys))
  {
    hide Read;
    match p
    case Code(c) => ReadChar(c, rest, Between(keys));
    case Divide(c) => ReadSlash(c, rest, Between(keys));
    case Regex(_, _) => ReadQuiet(PrintOne(p), rest, Between(keys));
    case Group(open, inner, close) =>
      hide Print, Visible, Ok;
      GroupShape(p, rest);
      ReadBracket(open, Print(inner) + ([close] + rest), Between(keys));
      ReadPieces(inner, [close] + rest, InValue(keys));
      ReadBracket(close, rest, InValue(keys));
    case _ => ReadNonCode(p, rest, Between(keys));
  }

  lemma {:induction false} ReadSep(ps: seq<Piece>, rest: string, keys: seq<string>)
    requires OkSep(ps)
    ensures Read(Print(ps) + rest, Between(keys)) == Read(rest, Between(keys))
  {
    hide Read, PrintOne, OkOne;
    if ps == [] {
      assert Print(ps) + rest == rest;
    } else {
      assert ps == [ps[0]] + ps[1..];
      PrintCons(ps[0], ps[1..]);
      assert Print(ps) + rest == PrintOne(ps[0]) + (Print(ps[1..]) + rest);
      ReadSepPiece(ps[0], Print(ps[1..]) + rest, keys);
      ReadSep(ps[1..], rest, keys);
    }
  }

  lemma {:induction false} ReadOperand(o: Operand, rest: string, keys: seq<string>)
    requires OkOperand(o)
    ensures Read(Upto(o) + rest, Between(keys)) == Read(rest, EndIn(o, keys))
  {
    hide Read, Print, OkSep, EndIn, BodyOf;
    assert Upto(o) + rest == Print(o.sep) + (['{'] + (Print(BodyOf(o)) + rest));
    ReadSep(o.sep, ['{'] + (Print(BodyOf(o)) + rest), keys);
    ReadBracket('{', Print(BodyOf(o)) + rest, Between(keys));
    ReadBodyIn(o, rest, keys);
  }

  // ---------- a brace in the token makes the answer unreadable ----------

  /** A key is no identifier already, or will be none: the token holds a closing brace. */
  ghost predicate Spoilt(r: Reader) {
    (exists k <- r.keys :: !Identifier(k)) || (!r.inValue && '}' in r.token)
  }

  lemma {:induction false} TrimKeeps(s: string, c: char)
    requires c in s && !IsSpace(c)
    ensures c in Trim(s)
  {
    TrimStartKeeps(s, c);
    TrimEndKeeps(TrimStart(s), c);
  }

  lemma {:induction false} TrimStartKeeps(s: string, c: char)
    requires c in s && !IsSpace(c)
    ensures c in TrimStart(s)
  {
    if IsSpace(s[0]) {
      TrimStartKeeps(s[1..], c);
    }
  }

  lemma {:induction false} TrimEndKeeps(s: string, c: char)
    requires c in s && !IsSpace(c)
    ensures c in TrimEnd(s)
  {
    if IsSpace(s[|s| - 1]) {
      TrimEndKeeps(s[..|s| - 1], c);
    }
  }

  lemma {:induction false} FlushSpoils(r: Reader)
    requires !r.inValue && '}' in r.token && r.depth == 0
    ensures exists k <- Flush(r).keys :: !Identifier(k)
  {
    hide Trim;
    TrimKeeps(r.token, '}');
    var name := Trim(r.token);
    assert !IdPart('}') && !Identifier(name);
    assert Flush(r).keys[|r.keys|] == name;
  }

  lemma {:induction false} CharKeepsSpoilt(c: char, r: Reader)
    requires Spoilt(r)
    ensures Spoilt(CodeChar(r, c))
  {
    hide Trim, Identifier;
    if !r.inValue && '}' in r.token && r.depth == 0 && (c == ':' || c == ',') {
      FlushSpoils(r);
    } else {
      assert forall k <- r.keys :: k in CodeChar(r, c).keys;
    }
  }

  lemma {:induction false} PastKeepsSpoilt(r: Reader, visible: string)
    requires Spoilt(r)
    ensures Spoilt(Past(r, visible))
  {
  }

  /** Reading on: the depth comes back, and what is spoilt stays spoilt. */
  ghost predicate Passed(before: Reader, after: Reader) {
    after.depth == before.depth && after.mode == InCode && (Spoilt(before) ==> Spoilt(after))
  }

  lemma {:induction false} PassQuiet(t: string, rest: string, r: Reader) returns (r': Reader)
    requires Quiet(t) && r.mode == InCode
    ensures Read(t + rest, r) == Read(rest, r') && Passed(r, r')
    decreases |t|
  {
    hide Read, Quiet, Flush, Spoilt;
    if t == "" {
      r' := r;
      assert t + rest == rest;
    } else {
      QuietTail(t);
      assert t + rest == [t[0]] + (t[1..] + rest);
      if t[0] == '/' {
        assert t[1..] + rest == [t[1]] + (t[2..] + rest);
        SlashIsCode(t[1], t[2..] + rest, r);
        var slashed := Past(r, "/");
        ReadChar(t[1], t[2..] + rest, slashed);
        CharKeepsDepth(t[1], slashed);
        r' := PassQuiet(t[2..], rest, CodeChar(slashed, t[1]));
        if Spoilt(r) {
          PastKeepsSpoilt(r, "/");
          CharKeepsSpoilt(t[1], slashed);
        }
      } else {
        ReadChar(t[0], t[1..] + rest, r);
        CharKeepsDepth(t[0], r);
        r' := PassQuiet(t[1..], rest, CodeChar(r, t[0]));
        if Spoilt(r) {
          CharKeepsSpoilt(t[0], r);
        }
      }
    }
  }

  lemma {:induction false} CharKeepsDepth(c: char, r: Reader)
    requires PlainCode(c) && r.mode == InCode
    ensures CodeChar(r, c).depth == r.depth && CodeChar(r, c).mode == InCode
  {
    hide Trim;
  }

  lemma {:induction false} PassPiece(p: Piece, rest: string, r: Reader) returns (r': Reader)
    requires OkOne(p) && r.mode == InCode
    ensures Read(PrintOne(p) + rest, r) == Read(rest, r') && Passed(r, r')
    decreases p, 1
  {
    hide Read, Flush, Spoilt;
    match p {
      case Code(c) =>
        ReadChar(c, rest, r);
        r' := CodeChar(r, c);
        CharKeepsDepth(c, r);
        if Spoilt(r) {
          CharKeepsSpoilt(c, r);
        }
      case Divide(c) =>
        ReadSlash(c, rest, r);
        r' := Past(r, ['/', c]);
        if Spoilt(r) {
          PastKeepsSpoilt(r, ['/', c]);
        }
      case Regex(_, _) =>
        r' := PassQuiet(PrintOne(p), rest, r);
      case Group(open, inner, close) =>
        hide Print, Visible, Ok;
        GroupShape(p, rest);
        ReadBracket(open, Print(inner) + ([close] + rest), r);
        var within := Past(r, [open]).(depth := r.depth + 1);
        var closing := PassPieces(inner, [close] + rest, within);
        ReadBracket(close, rest, closing);
        BracketsDiffer(close);
        r' := Past(closing, [close]).(depth := closing.depth - 1);
        if Spoilt(r) {
          BracketKeepsSpoilt(r, open, r.depth + 1);
          BracketKeepsSpoilt(closing, close, closing.depth - 1);
        }
      case _ =>
        ReadNonCode(p, rest, r);
        r' := r;
    }
  }

  lemma {:induction false} BracketKeepsSpoilt(r: Reader, c: char, depth: int)
    requires Spoilt(r)
    ensures Spoilt(Past(r, [c]).(depth := depth))
  {
  }

  lemma {:induction false} PassPieces(ps: seq<Piece>, rest: string, r: Reader) returns (r': Reader)
    requires Ok(ps) && r.mode == InCode
    ensures Read(Print(ps) + rest, r) == Read(rest, r') && Passed(r, r')
    decreases ps, 0
  {
    hide Read, PrintOne, OkOne, Spoilt;
    if ps == [] {
      r' := r;
      assert Print(ps) + rest == rest;
    } else {
      assert ps == [ps[0]] + ps[1..];
      PrintCons(ps[0], ps[1..]);
      assert Print(ps) + rest == PrintOne(ps[0]) + (Print(ps[1..]) + rest);
      var next := PassPiece(ps[0], Print(ps[1..]) + rest, r);
      r' := PassPieces(ps[1..], rest, next);
    }
  }

  lemma {:induction false} PassOperand(o: Operand, rest: string, r: Reader) returns (r': Reader)
    requires OkOperand(o) && r.mode == InCode && r.depth == -1 && Spoilt(r)
    ensures Read(Upto(o) + rest, r) == Read(rest, r')
    ensures r'.depth == 0 && r'.mode == InCode && Spoilt(r')
  {
    hide Read, Print, Spoilt, Ok, Body;
    assert Upto(o) + rest == Print(o.sep) + (['{'] + (Print(BodyOf(o)) + rest));
    var behind := PassPieces(o.sep, ['{'] + (Print(BodyOf(o)) + rest), r);
    ReadBracket('{', Print(BodyOf(o)) + rest, behind);
    BracketKeepsSpoilt(behind, '{', 0);
    BodyIsOk(o.entries, o.trailing, o.tail);
    r' := PassPieces(BodyOf(o), rest, Past(behind, "{").(depth := 0));
  }

  lemma {:induction false} SpoiltIsUnreadable(r: Reader)
    requires Spoilt(r) && r.depth == 0
    ensures FirstUnreadable(Finish(r)).Some?
  {
    if !r.inValue {
      if '}' in r.token {
        FlushSpoils(r);
      } else {
        hide Trim;
        assert forall k <- r.keys :: k in Flush(r).keys;
      }
    }
    SomeUnreadable(Finish(r));
  }

  lemma {:induction false} SomeUnreadable(keys: seq<string>)
    requires exists k <- keys :: !Identifier(k)
    ensures FirstUnreadable(keys).Some?
  {
    if Identifier(keys[0]) {
      SomeUnreadable(keys[1..]);
    }
  }

  lemma {:induction false} SpoiltInside(more: seq<Operand>, r: Reader)
    requires more != [] && forall o <- more :: OkOperand(o)
    requires r.mode == InCode && r.depth == -1 && Spoilt(r)
    ensures FirstUnreadable(Finish(Read(Inside(more), r))).Some?
  {
    hide Read, Print, Spoilt, OkOperand, Upto, Finish;
    if |more| == 1 {
      var last := PassOperand(more[0], "", r);
      assert Upto(more[0]) + "" == Upto(more[0]);
      ReadEmpty(last);
      SpoiltIsUnreadable(last);
    } else {
      var behind := PassOperand(more[0], "}" + Inside(more[1..]), r);
      ReadBracket('}', Inside(more[1..]), behind);
      BracketKeepsSpoilt(behind, '}', -1);
      assert ['}'] + Inside(more[1..]) == "}" + Inside(more[1..]);
      SpoiltInside(more[1..], Past(behind, "}").(depth := -1));
    }
  }

  // ---------- all further literals ----------

  /** A further literal that leaves the reader in the value it is taken for a part of, or in its own last one. */
  predicate StaysInValue(o: Operand) {
    o.entries == [] || (!o.trailing && (|o.entries| == 1 || o.entries[|o.entries| - 1].Pair?))
  }

  predicate Connected(more: seq<Operand>) {
    |more| > 1 ==> StaysInValue(more[0]) && Connected(more[1..])
  }

  /** All entries of a further literal but the first, which is never read. */
  function Later(entries: seq<Entry>): seq<Entry> { if entries == [] then [] else entries[1..] }

  function LaterEntries(more: seq<Operand>): seq<Entry> {
    if more == [] then [] else Later(more[0].entries) + LaterEntries(more[1..])
  }

  lemma {:induction false} NamesAppend(a: seq<Entry>, b: seq<Entry>)
    ensures Names(a + b) == Names(a) + Names(b)
  {
    hide Name;
    if a == [] {
      assert a + b == b;
    } else {
      assert (a + b)[0] == a[0] && (a + b)[1..] == a[1..] + b;
      NamesAppend(a[1..], b);
    }
  }

  lemma {:induction false} EndInMeans(o: Operand, keys: seq<string>)
    requires OkOperand(o)
    ensures var r := EndIn(o, keys);
            && r.depth == 0 && r.mode == InCode
            && (r.inValue <==> StaysInValue(o))
            && (r.inValue ==> r == InValue(keys + Names(Later(o.entries))))
            && Finish(r) == keys + Names(Later(o.entries))
  {
    hide Name, EndOf, OkEntry, Trivia;
    if o.entries == [] || (|o.entries| == 1 && !o.trailing) {
      assert Later(o.entries) == [] && keys + [] == keys;
      FinishInValue(keys);
    } else {
      EndOfMeans(o.entries[1..], o.trailing, o.tail, keys);
    }
  }

  lemma {:induction false} CloseLiteral(r: Reader, rest: string)
    requires r.depth == 0 && r.mode == InCode
    ensures Read("}" + rest, r) == Read(rest, Past(r, "}").(depth := -1))
    ensures !r.inValue ==> Spoilt(Past(r, "}").(depth := -1))
    ensures r.inValue && r.token == "" ==> Past(r, "}").(depth := -1) == Between(r.keys)
  {
    hide Read;
    ReadBracket('}', rest, r);
    assert ['}'] + rest == "}" + rest;
    assert (r.token + "}")[|r.token|] == '}';
  }

  lemma {:induction false} ReadOn(o: Operand, rest: string, keys: seq<string>)
    requires OkOperand(o)
    ensures var r := Past(EndIn(o, keys), "}").(depth := -1);
            && Read(Upto(o) + ("}" + rest), Between(keys)) == Read(rest, r)
            && r.mode == InCode && r.depth == -1
            && (StaysInValue(o) ==> r == Between(keys + Names(Later(o.entries))))
            && (!StaysInValue(o) ==> Spoilt(r))
  {
    hide Read, Upto, EndIn, Names, OkOperand, Spoilt, StaysInValue, Finish;
    EndInMeans(o, keys);
    ReadOperand(o, "}" + rest, keys);
    CloseLiteral(EndIn(o, keys), rest);
  }

  lemma {:induction false} ReadLast(o: Operand, keys: seq<string>)
    requires OkOperand(o)
    ensures Finish(Read(Upto(o), Between(keys))) == keys + Names(Later(o.entries))
  {
    hide Read, Upto, EndIn, Names, OkOperand, Finish;
    EndInMeans(o, keys);
    ReadOperand(o, "", keys);
    assert Upto(o) + "" == Upto(o);
    ReadEmpty(EndIn(o, keys));
  }

  lemma {:induction false} NamesJoin(keys: seq<string>, more: seq<Operand>)
    requires more != []
    ensures keys + Names(Later(more[0].entries)) + Names(LaterEntries(more[1..])) == keys + Names(LaterEntries(more))
  {
    hide Name;
    NamesAppend(Later(more[0].entries), LaterEntries(more[1..]));
  }

  lemma {:induction false} ReadInside(more: seq<Operand>, keys: seq<string>)
    requires more != [] && forall o <- more :: OkOperand(o)
    ensures var read := Finish(Read(Inside(more), Between(keys)));
            if Connected(more) then read == keys + Names(LaterEntries(more)) else FirstUnreadable(read).Some?
    decreases |more|
  {
    hide Read, Finish, Upto, EndIn, Names, OkOperand, Spoilt, FirstUnreadable, StaysInValue, Later, LaterEntries;
    var o, later := more[0], more[1..];
    NamesJoin(keys, more);
    if |more| == 1 {
      ReadLast(o, keys);
      assert Names(LaterEntries(later)) == [] by { NoLater(); }
      assert keys + Names(Later(o.entries)) + [] == keys + Names(Later(o.entries));
    } else {
      ReadOn(o, Inside(later), keys);
      if StaysInValue(o) {
        ReadInside(later, keys + Names(Later(o.entries)));
      } else {
        SpoiltInside(later, Past(EndIn(o, keys), "}").(depth := -1));
      }
    }
  }

  lemma {:induction false} NoLater()
    ensures Names(LaterEntries([])) == []
  {
  }

  // ---------- main results ----------

  /** Every literal but the last ends in a value that the reader takes to go on. */
  predicate Joined(a: Operands) {
    a.more == [] || (EndsInValue(a.first.entries, a.first.trailing) && Connected(a.more))
  }

  function EntriesRead(a: Operands): seq<Entry> { a.first.entries + LaterEntries(a.more) }

  lemma {:induction false} ReadFirst(c: Call, rest: string)
    requires OkCall(c)
    ensures var r := EndOf(c.entries, c.trailing, c.tail, []);
            && Read(Print(FirstBody(c)) + rest, FRESH) == Read(rest, r)
            && Finish(r) == Names(c.entries) && r.depth == 0 && r.mode == InCode
            && (r.inValue <==> EndsInValue(c.entries, c.trailing))
            && (r.inValue ==> r == InValue(Names(c.entries)))
  {
    hide Read, Print, Names, EndOf, Trivia, OkEntry, Body, EndsInValue, Finish;
    EndOfMeans(c.entries, c.trailing, c.tail, []);
    assert [] + Names(c.entries) == Names(c.entries);
    ReadBodyTo(c.entries, c.trailing, c.tail, rest, []);
  }

  lemma {:induction false} InnerReads(a: Operands)
    requires OkOperands(a)
    ensures if Joined(a) then KeysOf(Inner(a)) == Names(EntriesRead(a))
            else FirstUnreadable(KeysOf(Inner(a))).Some?
  {
    hide Read, Print, Names, OkOperand, Spoilt, FirstUnreadable, EndOf, OkCall, Inside, Flush;
    hide FirstBody, EndsInValue, Connected, LaterEntries;
    var c, r := a.first, EndOf(a.first.entries, a.first.trailing, a.first.tail, []);
    assert KeysOf(Inner(a)) == Finish(Read(Inner(a), FRESH));
    NamesAppend(c.entries, LaterEntries(a.more));
    if a.more == [] {
      ReadFirst(c, "");
      ReadEmpty(r);
      assert Names(LaterEntries(a.more)) == [] by { NoLater(); }
      assert Names(c.entries) + [] == Names(c.entries);
    } else {
      hide Finish;
      ReadFirst(c, "}" + Inside(a.more));
      CloseLiteral(r, Inside(a.more));
      if r.inValue {
        ReadInside(a.more, Names(c.entries));
      } else {
        SpoiltInside(a.more, Past(r, "}").(depth := -1));
      }
    }
  }

  function AllEntries(more: seq<Operand>): seq<Entry> {
    if more == [] then [] else more[0].entries + AllEntries(more[1..])
  }

  lemma {:induction false} LaterAreFewer(more: seq<Operand>)
    ensures |LaterEntries(more)| <= |AllEntries(more)|
    ensures |LaterEntries(more)| == |AllEntries(more)| <==> forall o <- more :: o.entries == []
  {
    if more != [] {
      LaterAreFewer(more[1..]);
      assert forall o <- more :: o == more[0] || o in more[1..];
    }
  }

  lemma {:induction false} LaterAreOk(more: seq<Operand>)
    requires forall o <- more :: OkOperand(o)
    ensures forall e <- LaterEntries(more) :: OkEntry(e)
  {
    hide OkEntry, Trivia, OkSep;
    if more != [] {
      LaterAreOk(more[1..]);
      assert OkOperand(more[0]);
    }
  }

  /**
   Main result, for every printed call, with any number of literals: a readable answer names the
   unquoted keys of the first literal and those of each further one but its first entry. It hides an
   entry exactly when a key is quoted or a further literal has an entry at all, so that without quoted
   keys it covers the whole argument text exactly when the first literal's brace ends all entries.
   */
  lemma {:induction false} FurtherLiteralsAreHidden(a: Operands, suffix: string)
    requires OkOperands(a)
    ensures var result := CallKeys(PrintOperands(a) + suffix);
            && (result.Readable? <==> Joined(a) && forall e <- EntriesRead(a) :: !Concealing(e))
            && (result.Readable? ==> result.keys == IdentifierKeys(EntriesRead(a)))
            && (result.Readable? ==>
                  (|result.keys| < |a.first.entries + AllEntries(a.more)|
                   <==> (exists e <- EntriesRead(a) :: HasQuotedKey(e)) || exists o <- a.more :: o.entries != []))
  {
    OperandsRead(a, suffix);
    hide CallKeys, PrintOperands, Joined, KeysOf, Inner, Names, FirstUnreadable, OkEntry, OkOperand, IdentifierKeys;
    InnerReads(a);
    LaterAreOk(a.more);
    LaterAreFewer(a.more);
    if Joined(a) {
      NamesOfEntries(EntriesRead(a));
      CountIdentifiers(EntriesRead(a));
    }
  }

  lemma {:induction false} OperandsRead(a: Operands, suffix: string)
    requires OkOperands(a)
    ensures CallKeys(PrintOperands(a) + suffix)
         == match FirstUnreadable(KeysOf(Inner(a)))
            case Some(key) => Unreadable(UnreadableKey(key))
            case None => Readable(KeysOf(Inner(a)))
  {
    hide Trim, Print, Ok, OkOperand, Read, Inner, OkCall, Pieces, KeysOf;
    PiecesTrim(a);
    ArgumentsFound(Pieces(a), suffix);
    var trimmed := Trim(Print(Pieces(a)));
    assert trimmed[1..|trimmed| - 1] == Inner(a);
  }

  /** Arguments that end in anything but a brace are reported as unreadable. */
  lemma {:induction false} OtherEndsAreUnreadable(c: Call, more: seq<Piece>, suffix: string)
    requires OkCall(c) && Ok(more) && Print(more) != ""
    requires var last := Print(more)[|Print(more)| - 1]; !IsSpace(last) && last != '}'
    ensures var pieces := Codes(c.before) + [Group('{', FirstBody(c), '}')] + more + Codes(c.after);
            CallKeys("(" + Print(pieces) + ")" + suffix) == Unreadable(NotObjectLiteral)
  {
    hide Trim, Print, Ok, OkEntry, Body, Trivia, KeysOf;
    var pieces := Codes(c.before) + [Group('{', FirstBody(c), '}')] + more + Codes(c.after);
    BodyIsOk(c.entries, c.trailing, c.tail);
    PrintPadded(c, more);
    var text := "{" + Print(FirstBody(c)) + "}" + Print(more);
    TrimPadded(c.before, text, c.after);
    ArgumentsFound(pieces, suffix);
  }

  // ---------- two arguments ----------

  function Single(name: string, value: string): Entry { Pair([], Ident(name), [], Codes(value)) }

  lemma {:induction false} SinglePrints(name: string, value: string)
    requires Identifier(name) && forall c <- value :: PlainCode(c) && c != ','
    ensures OkEntry(Single(name, value))
    ensures Print(EntryPieces(Single(name, value))) == name + ":" + value
  {
    hide Print, Ok, Identifier;
    assert Head(Single(name, value)) == Codes(name) by { assert [] + Codes(name) + [] == Codes(name); }
    PrintThree(Codes(name), [Code(':')], Codes(value));
    CodesPrint(name);
    CodesPrint(value);
    PrintColon();
    NothingPrints();
    NoCommaInCodes(value);
  }

  lemma {:induction false} NoCommaInCodes(value: string)
    requires ',' !in value
    ensures forall p <- Codes(value) :: !Splits(p, ',')
  {
    forall p | p in Codes(value) ensures !Splits(p, ',') {
      var i :| 0 <= i < |value| && p == Code(value[i]);
      assert value[i] in value;
    }
  }

  /** The second of two arguments is hidden: a call with `{a: 1}` and `{b: 2}` reads as having the key a. */
  lemma {:induction false} SecondArgumentIsHidden(a: string, b: string)
    requires Identifier(a) && Identifier(b)
    ensures CallKeys("({" + a + ": 1}, {" + b + ": 2})") == Readable([a])
  {
    var ea, eb := Single(a, " 1"), Single(b, " 2");
    var first, second := Call("", [ea], false, [], ""), Operand(Codes(", "), [eb], false, []);
    var args := Operands(first, [second]);
    TwoArgumentsPrint(a, b, ea, eb);
    assert LaterEntries([second]) == [] by { assert [second][1..] == [] && Later([eb]) == []; }
    assert EntriesRead(args) == [ea];
    assert IdentifierKeys([ea]) == [a] by { assert [ea][1..] == []; }
    FurtherLiteralsAreHidden(args, "");
    assert PrintOperands(args) + "" == PrintOperands(args);
  }

  lemma {:induction false} SingleBody(name: string, value: string)
    requires Identifier(name) && forall c <- value :: PlainCode(c) && c != ','
    ensures Print(Body([Single(name, value)], false, [])) == name + ":" + value
  {
    hide Print, EntryPieces, Identifier, PlainCode;
    SinglePrints(name, value);
    assert Body([Single(name, value)], false, []) == EntryPieces(Single(name, value)) + [];
    assert EntryPieces(Single(name, value)) + [] == EntryPieces(Single(name, value));
  }

  lemma {:induction false} TwoArgumentsPrint(a: string, b: string, ea: Entry, eb: Entry)
    requires Identifier(a) && Identifier(b) && ea == Single(a, " 1") && eb == Single(b, " 2")
    ensures var args := Operands(Call("", [ea], false, [], ""), [Operand(Codes(", "), [eb], false, [])]);
            OkOperands(args) && PrintOperands(args) == "({" + a + ": 1}, {" + b + ": 2})"
  {
    hide *;
    var second := Operand(Codes(", "), [eb], false, []);
    var first := Call("", [ea], false, [], "");
    TwoArgumentsAreOk(a, b, ea, eb);
    SingleBody(a, " 1");
    SingleBody(b, " 2");
    FurtherPrints([second]);
    OneInside(second);
    CodesPrint(", ");
    PrintPadded(first, Further([second]));
    PrintsAs(Operands(first, [second]));
    TwoTexts(a, b);
  }

  lemma {:induction false} PrintsAs(a: Operands)
    ensures var first := Codes(a.first.before) + [Group('{', FirstBody(a.first), '}')];
            PrintOperands(a) == "(" + Print(first + Further(a.more) + Codes(a.first.after)) + ")"
    ensures FirstBody(a.first) == Body(a.first.entries, a.first.trailing, a.first.tail)
    ensures forall o <- a.more :: BodyOf(o) == Body(o.entries, o.trailing, o.tail)
  {
  }

  lemma {:induction false} TwoTexts(a: string, b: string)
    ensures "(" + ("" + ("{" + (a + ":" + " 1") + "}" + (", " + ("{" + (b + ":" + " 2")) + "}")) + "") + ")"
         == "({" + a + ": 1}, {" + b + ": 2})"
  {
  }

  lemma {:induction false} TwoArgumentsAreOk(a: string, b: string, ea: Entry, eb: Entry)
    requires Identifier(a) && Identifier(b) && ea == Single(a, " 1") && eb == Single(b, " 2")
    ensures OkOperands(Operands(Call("", [ea], false, [], ""), [Operand(Codes(", "), [eb], false, [])]))
    ensures OkOperand(Operand(Codes(", "), [eb], false, [])) && Blank("")
    ensures forall c <- " 1" + " 2" + ", " :: PlainCode(c)
    ensures forall c <- " 1" + " 2" :: c != ','
  {
    hide OkEntry, Identifier, Print, TrueSlashes;
    SinglePrints(a, " 1");
    SinglePrints(b, " 2");
    CodesPrint(", ");
    NothingPrints();
    SingleHasNoSlash(a, " 1");
    SingleHasNoSlash(b, " 2");
    NoSlashes(Codes(", "), Unsure);
  }

  lemma {:induction false} SingleHasNoSlash(name: string, value: string)
    ensures TrueSlashes(Body([Single(name, value)], false, []), BehindOperator)
  {
    hide TrueSlashes;
    var e := Single(name, value);
    assert Head(e) == Codes(name) by { assert [] + Codes(name) + [] == Codes(name); }
    assert Body([e], false, []) == EntryPieces(e) + [] == EntryPieces(e);
    assert forall p <- EntryPieces(e) :: p.Code?;
    NoSlashes(EntryPieces(e), BehindOperator);
  }

  lemma {:induction false} OneInside(o: Operand)
    ensures Inside([o]) == Print(o.sep) + ("{" + Print(BodyOf(o)))
  {
  }
}
