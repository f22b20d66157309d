/**
 Printed option calls, and what the scanners of OptionScanner answer about them: a readable answer
 names exactly the unquoted keys, in order, and the answer is readable unless a key is computed or an
 entry is a spread. A quoted key leaves nothing in the token the scanner keeps, so it disappears.
 */
module OptionCalls {
  import opened Prelude
  import opened OptionScanner
  import opened OptionSyntax

  datatype Key = Ident(name: string) | StringKey(quote: Quote, body: seq<Unit>) | Computed(expr: seq<Piece>)

  /** `lead` and `mid` are white space and comments around the key. */
  datatype Entry =
    | Pair(lead: seq<Piece>, key: Key, mid: seq<Piece>, value: seq<Piece>)
    | Short(lead: seq<Piece>, name: string, mid: seq<Piece>)
    | Spread(lead: seq<Piece>, expr: seq<Piece>)

  predicate Blank(s: string) { forall c <- s :: IsSpace(c) }

  predicate Trivia(ps: seq<Piece>) {
    && Ok(ps)
    && forall p <- ps :: p.LineComment? || p.BlockComment? || (p.Code? && IsSpace(p.c))
  }

  predicate NoTopComma(ps: seq<Piece>) { Ok(ps) && forall p <- ps :: !Splits(p, ',') }

  predicate OkEntry(e: Entry) {
    match e
    case Pair(lead, key, mid, value) =>
      && Trivia(lead) && Trivia(mid) && NoTopComma(value)
      && (match key
          case Ident(name) => Identifier(name)
          case StringKey(q, body) => OkUnits(q, body)
          case Computed(expr) => Ok(expr))
    case Short(lead, name, mid) => Trivia(lead) && Identifier(name) && Trivia(mid)
    case Spread(lead, expr) => Trivia(lead) && NoTopComma(expr) && forall p <- expr :: !Splits(p, ':')
  }

  function Codes(s: string): seq<Piece> { seq(|s|, i requires 0 <= i < |s| => Code(s[i])) }

  function KeyPieces(key: Key): seq<Piece> {
    match key
    case Ident(name) => Codes(name)
    case StringKey(q, body) => [Str(q, body)]
    case Computed(expr) => [Group('[', expr, ']')]
  }

  /** An entry up to its colon, if it has one. */
  function Head(e: Entry): seq<Piece> {
    match e
    case Pair(lead, key, mid, _) => lead + KeyPieces(key) + mid
    case Short(lead, name, mid) => lead + Codes(name) + mid
    case Spread(lead, expr) => lead + Codes("...") + expr
  }

  function EntryPieces(e: Entry): seq<Piece> {
    if e.Pair? then Head(e) + [Code(':')] + e.value else Head(e)
  }

  /** Entries separated by commas, perhaps a trailing one, and white space or comments at the end. */
  function Body(entries: seq<Entry>, trailing: bool, tail: seq<Piece>): seq<Piece> {
    if entries == [] then tail
    else if |entries| == 1 && !trailing then EntryPieces(entries[0]) + tail
    else EntryPieces(entries[0]) + [Code(',')] + Body(entries[1..], trailing, tail)
  }

  datatype Call = Call(before: string, entries: seq<Entry>, trailing: bool, tail: seq<Piece>, after: string)

  predicate OkCall(c: Call) {
    && Blank(c.before) && Blank(c.after) && Trivia(c.tail) && (forall e <- c.entries :: OkEntry(e))
    && TrueSlashes(Body(c.entries, c.trailing, c.tail), BehindOperator)
  }

  function Arguments(c: Call): seq<Piece> {
    Codes(c.before) + [Group('{', Body(c.entries, c.trailing, c.tail), '}')] + Codes(c.after)
  }

  function PrintCall(c: Call): string { "(" + Print(Arguments(c)) + ")" }

  // ---------- trimming ----------

  lemma {:induction false} TrimStartPadded(a: string, s: string)
    requires Blank(a) && (s == "" || !IsSpace(s[0]))
    ensures TrimStart(a + s) == s
  {
    if a == "" {
      assert a + s == s;
    } else {
      assert (a + s)[1..] == a[1..] + s;
      TrimStartPadded(a[1..], s);
    }
  }

  lemma {:induction false} TrimEndPadded(s: string, b: string)
    requires Blank(b)
    ensures TrimEnd(s + b) == TrimEnd(s)
  {
    if b == "" {
      assert s + b == s;
    } else {
      assert (s + b)[..|s + b| - 1] == s + b[..|b| - 1];
      TrimEndPadded(s, b[..|b| - 1]);
    }
  }

  /** Trimming drops the white space on both sides of a text that starts and ends visibly. */
  lemma {:induction false} TrimPadded(a: string, s: string, b: string)
    requires Blank(a) && Blank(b)
    requires s != "" ==> !IsSpace(s[0]) && !IsSpace(s[|s| - 1])
    ensures Trim(a + s + b) == s
  {
    if s == "" {
      assert Blank(a + b) && a + s + b == a + b + "";
      TrimStartPadded(a + b, "");
    } else {
      assert a + s + b == a + (s + b);
      TrimStartPadded(a, s + b);
      TrimEndPadded(s, b);
    }
  }

  /** A visible first character survives trimming. */
  lemma {:induction false} TrimKeepsFirst(a: string, s: string)
    requires Blank(a) && s != "" && !IsSpace(s[0])
    ensures Trim(a + s) != "" && Trim(a + s)[0] == s[0]
  {
    TrimStartPadded(a, s);
    TrimEndKeepsFirst(s);
  }

  lemma {:induction false} TrimEndKeepsFirst(s: string)
    requires s != "" && !IsSpace(s[0])
    ensures TrimEnd(s) != "" && TrimEnd(s)[0] == s[0]
  {
    if IsSpace(s[|s| - 1]) {
      TrimEndKeepsFirst(s[..|s| - 1]);
    }
  }

  lemma {:induction false} TrimBlankEnd(s: string, b: string)
    requires Blank(b)
    ensures Trim(s + b) == Trim(s)
  {
    if Blank(s) {
      assert Blank(s + b) && s + b == s + b + "" && s == s + "";
      TrimStartPadded(s + b, "");
      TrimStartPadded(s, "");
    } else {
      var i := FirstVisible(s);
      assert s == s[..i] + s[i..] && s + b == s[..i] + (s[i..] + b);
      TrimStartPadded(s[..i], s[i..]);
      TrimStartPadded(s[..i], s[i..] + b);
      TrimEndPadded(s[i..], b);
    }
  }

  lemma {:induction false} FirstVisible(s: string) returns (i: nat)
    requires !Blank(s)
    ensures i < |s| && !IsSpace(s[i]) && Blank(s[..i])
  {
    if IsSpace(s[0]) {
      var j := FirstVisible(s[1..]);
      i := j + 1;
      assert s[..i] == [s[0]] + s[1..][..j];
    } else {
      i := 0;
    }
  }

  // ---------- what an entry leaves in the token ----------

  lemma {:induction false} TriviaIsBlank(ps: seq<Piece>)
    requires Trivia(ps)
    ensures Blank(Visible(ps))
  {
    if ps != [] {
      assert Trivia(ps[1..]);
      TriviaIsBlank(ps[1..]);
      assert ps[0] in ps;
    }
  }

  lemma {:induction false} CodesPrint(s: string)
    ensures Print(Codes(s)) == s && Visible(Codes(s)) == s
    ensures (forall c <- s :: PlainCode(c)) ==> Ok(Codes(s))
  {
    if s != "" {
      assert Codes(s)[1..] == Codes(s[1..]);
      CodesPrint(s[1..]);
    }
  }

  /** The name the scanner keeps of an entry: nothing for a quoted key. */
  function Name(e: Entry): string { Trim(Visible(Head(e))) }

  lemma {:induction false} NameOfIdentifier(lead: seq<Piece>, name: string, mid: seq<Piece>)
    requires Trivia(lead) && Identifier(name) && Trivia(mid)
    ensures Trim(Visible(lead + Codes(name) + mid)) == name
    ensures Ok(lead + Codes(name) + mid)
  {
    PrintAppend(lead + Codes(name), mid);
    PrintAppend(lead, Codes(name));
    TriviaIsBlank(lead);
    TriviaIsBlank(mid);
    assert forall c <- name :: IdPart(c) && PlainCode(c) && !IsSpace(c);
    CodesPrint(name);
    TrimPadded(Visible(lead), name, Visible(mid));
  }

  lemma {:induction false} NameOfString(lead: seq<Piece>, q: Quote, body: seq<Unit>, mid: seq<Piece>)
    requires Trivia(lead) && OkUnits(q, body) && Trivia(mid)
    ensures Trim(Visible(lead + [Str(q, body)] + mid)) == ""
    ensures Ok(lead + [Str(q, body)] + mid)
  {
    PrintAppend(lead + [Str(q, body)], mid);
    PrintAppend(lead, [Str(q, body)]);
    TriviaIsBlank(lead);
    TriviaIsBlank(mid);
    assert Visible([Str(q, body)]) == "" && Ok([Str(q, body)]);
    TrimPadded(Visible(lead), "", Visible(mid));
    assert Visible(lead) + "" + Visible(mid) == Visible(lead + [Str(q, body)] + mid);
  }

  lemma {:induction false} NameOfComputed(lead: seq<Piece>, expr: seq<Piece>, mid: seq<Piece>)
    requires Trivia(lead) && Ok(expr) && Trivia(mid)
    ensures var name := Trim(Visible(lead + [Group('[', expr, ']')] + mid)); name != "" && name[0] == '['
    ensures Ok(lead + [Group('[', expr, ']')] + mid)
  {
    var g := Group('[', expr, ']');
    PrintAppend(lead + [g], mid);
    PrintAppend(lead, [g]);
    TriviaIsBlank(lead);
    assert Visible([g]) == ['['] + (Visible(expr) + [']']) && Ok([g]);
    TrimKeepsFirst(Visible(lead), Visible([g]) + Visible(mid));
    assert Visible(lead) + (Visible([g]) + Visible(mid)) == Visible(lead + [g] + mid);
  }

  lemma {:induction false} PrintThree(a: seq<Piece>, b: seq<Piece>, c: seq<Piece>)
    ensures Print(a + b + c) == Print(a) + Print(b) + Print(c)
    ensures Visible(a + b + c) == Visible(a) + Visible(b) + Visible(c)
    ensures Ok(a + b + c) <==> Ok(a) && Ok(b) && Ok(c)
  {
    hide Visible, Print, Ok;
    PrintAppend(a + b, c);
    PrintAppend(a, b);
  }

  lemma {:induction false} NameOfSpread(lead: seq<Piece>, expr: seq<Piece>)
    requires Trivia(lead) && Ok(expr)
    ensures var name := Trim(Visible(lead + Codes("...") + expr)); name != "" && name[0] == '.'
    ensures Ok(lead + Codes("...") + expr)
  {
    hide Trim, Visible, Print, Ok;
    PrintThree(lead, Codes("..."), expr);
    TriviaIsBlank(lead);
    CodesPrint("...");
    TrimKeepsFirst(Visible(lead), "..." + Visible(expr));
    assert Visible(lead) + ("..." + Visible(expr)) == Visible(lead) + "..." + Visible(expr);
  }

  predicate HasIdentifier(e: Entry) { e.Short? || (e.Pair? && e.key.Ident?) }
  predicate HasQuotedKey(e: Entry) { e.Pair? && e.key.StringKey? }

  /** Entries are told apart by what the scanner keeps: a name, nothing, or something unreadable. */
  lemma {:induction false} NameMeans(e: Entry)
    requires OkEntry(e)
    ensures Ok(Head(e))
    ensures HasIdentifier(e) ==> Name(e) == (if e.Short? then e.name else e.key.name) && Identifier(Name(e))
    ensures HasQuotedKey(e) ==> Name(e) == ""
    ensures !HasIdentifier(e) && !HasQuotedKey(e) ==> Name(e) != "" && !Identifier(Name(e))
  {
    match e
    case Pair(lead, key, mid, _) =>
      match key {
        case Ident(name) => NameOfIdentifier(lead, name, mid);
        case StringKey(q, body) => NameOfString(lead, q, body, mid);
        case Computed(expr) => NameOfComputed(lead, expr, mid);
      }
    case Short(lead, name, mid) => NameOfIdentifier(lead, name, mid);
    case Spread(lead, expr) => NameOfSpread(lead, expr);
  }

  // ---------- reading a body ----------

  function Kept(name: string): seq<string> { if name == "" then [] else [name] }

  function Names(entries: seq<Entry>): seq<string> {
    if entries == [] then [] else Kept(Name(entries[0])) + Names(entries[1..])
  }

  function At(keys: seq<string>): Reader { Reader(0, InCode, false, "", keys) }
  function InValue(keys: seq<string>): Reader { Reader(0, InCode, true, "", keys) }

  predicate EndsNoKey(ps: seq<Piece>) { forall p <- ps :: !Splits(p, ',') && !Splits(p, ':') }

  lemma {:induction false} CodesEndNoKey(s: string)
    requires ',' !in s && ':' !in s
    ensures EndsNoKey(Codes(s))
  {
    forall p | p in Codes(s) ensures !Splits(p, ',') && !Splits(p, ':') {
      var i :| 0 <= i < |s| && p == Code(s[i]);
      assert s[i] in s;
    }
  }

  lemma {:induction false} HeadEndsNoKey(e: Entry)
    requires OkEntry(e)
    ensures EndsNoKey(Head(e))
  {
    assert EndsNoKey(e.lead);
    match e
    case Pair(_, key, mid, _) =>
      assert EndsNoKey(mid);
      if key.Ident? { CodesEndNoKey(key.name); }
    case Short(_, name, mid) =>
      assert EndsNoKey(mid);
      CodesEndNoKey(name);
    case Spread(_, expr) =>
      CodesEndNoKey("...");
      assert EndsNoKey(expr);
  }

  lemma {:induction false} ReadHead(e: Entry, rest: string, keys: seq<string>)
    requires OkEntry(e)
    ensures Read(Print(Head(e)) + rest, At(keys)) == Read(rest, At(keys).(token := Visible(Head(e))))
  {
    hide Read, Print, Visible, OkEntry;
    NameMeans(e);
    HeadEndsNoKey(e);
    ReadPieces(Head(e), rest, At(keys));
    assert "" + Visible(Head(e)) == Visible(Head(e));
  }

  lemma {:induction false} FlushName(e: Entry, keys: seq<string>)
    ensures CodeChar(At(keys).(token := Visible(Head(e))), ':') == InValue(keys + Kept(Name(e)))
    ensures CodeChar(At(keys).(token := Visible(Head(e))), ',') == At(keys + Kept(Name(e)))
  {
    hide Trim, Visible;
    assert keys + [] == keys;
  }

  lemma {:induction false} PairPrints(e: Entry, rest: string)
    requires e.Pair?
    ensures Print(EntryPieces(e)) + rest == Print(Head(e)) + ([':'] + (Print(e.value) + rest))
  {
    hide Print, Head;
    PrintThree(Head(e), [Code(':')], e.value);
    PrintColon();
  }

  lemma {:induction false} ReadValue(e: Entry, rest: string, keys: seq<string>)
    requires OkEntry(e) && e.Pair?
    ensures Read(Print(e.value) + rest, InValue(keys)) == Read(rest, InValue(keys))
  {
    hide Read, Print, Visible, Ok;
    ReadPieces(e.value, rest, InValue(keys));
  }

  /** Up to its end an entry leaves its name, in the token or, after a colon, among the keys. */
  lemma {:induction false} ReadEntry(e: Entry, rest: string, keys: seq<string>)
    requires OkEntry(e)
    ensures Read(Print(EntryPieces(e)) + rest, At(keys))
         == Read(rest, if e.Pair? then InValue(keys + Kept(Name(e))) else At(keys).(token := Visible(Head(e))))
  {
    hide Read, Print, Visible, Name, Head, OkEntry;
    if e.Pair? {
      var afterColon := Print(e.value) + rest;
      PairPrints(e, rest);
      ReadHead(e, [':'] + afterColon, keys);
      FlushName(e, keys);
      ReadChar(':', afterColon, At(keys).(token := Visible(Head(e))));
      ReadValue(e, rest, keys + Kept(Name(e)));
    } else {
      ReadHead(e, rest, keys);
    }
  }

  lemma {:induction false} PrintColon()
    ensures Print([Code(':')]) == ":" && Print([Code(',')]) == ","
  {
  }

  lemma {:induction false} ReadEntryAndComma(e: Entry, rest: string, keys: seq<string>)
    requires OkEntry(e)
    ensures Read(Print(EntryPieces(e)) + ([','] + rest), At(keys)) == Read(rest, At(keys + Kept(Name(e))))
  {
    hide Read, Print, Visible, Name;
    ReadEntry(e, [','] + rest, keys);
    if e.Pair? {
      ReadChar(',', rest, InValue(keys + Kept(Name(e))));
    } else {
      ReadChar(',', rest, At(keys).(token := Visible(Head(e))));
      FlushName(e, keys);
    }
  }

  function Finish(r: Reader): seq<string> { if r.inValue then r.keys else Flush(r).keys }

  lemma {:induction false} ReadTail(tail: seq<Piece>, r: Reader)
    requires Trivia(tail) && r.depth == 0 && r.mode == InCode
    ensures Finish(Read(Print(tail), r)) == Finish(r)
  {
    hide Read;
    assert forall p <- tail :: EndsNothing(r, p) by {
      assert forall c: char | IsSpace(c) :: c != ',' && c != ':';
    }
    assert Print(tail) + "" == Print(tail);
    ReadPieces(tail, "", r);
    ReadEmpty(Past(r, Visible(tail)));
    TriviaIsBlank(tail);
    TrimBlankEnd(r.token, Visible(tail));
  }

  lemma {:induction false} FinishAt(e: Entry, keys: seq<string>)
    ensures Finish(At(keys).(token := Visible(Head(e)))) == keys + Kept(Name(e))
  {
    assert keys + [] == keys;
  }

  /** The keys read from a printed body are the names its entries leave, in order. */
  lemma {:induction false} ReadBody(entries: seq<Entry>, trailing: bool, tail: seq<Piece>, keys: seq<string>)
    requires Trivia(tail) && forall e <- entries :: OkEntry(e)
    ensures Finish(Read(Print(Body(entries, trailing, tail)), At(keys))) == keys + Names(entries)
    decreases |entries|
  {
    hide Read, Print, Finish, Name, Visible, OkEntry, EntryPieces;
    if entries == [] {
      ReadTail(tail, At(keys));
      FinishEmpty(keys);
    } else if |entries| == 1 && !trailing {
      var e := entries[0];
      PrintAppend(EntryPieces(e), tail);
      ReadEntry(e, Print(tail), keys);
      ReadTail(tail, InValue(keys + Kept(Name(e))));
      ReadTail(tail, At(keys).(token := Visible(Head(e))));
      FinishAt(e, keys);
      FinishInValue(keys + Kept(Name(e)));
      assert Names(entries[1..]) == [];
    } else {
      var e, more := entries[0], Body(entries[1..], trailing, tail);
      PrintAppend(EntryPieces(e) + [Code(',')], more);
      PrintAppend(EntryPieces(e), [Code(',')]);
      PrintColon();
      assert Print(Body(entries, trailing, tail)) == Print(EntryPieces(e)) + ([','] + Print(more));
      ReadEntryAndComma(e, Print(more), keys);
      ReadBody(entries[1..], trailing, tail, keys + Kept(Name(e)));
      assert keys + Kept(Name(e)) + Names(entries[1..]) == keys + Names(entries);
    }
  }

  lemma {:induction false} FinishEmpty(keys: seq<string>)
    ensures Finish(At(keys)) == keys
  {
  }

  lemma {:induction false} FinishInValue(keys: seq<string>)
    ensures Finish(InValue(keys)) == keys
  {
  }

  // ---------- main results ----------

  lemma {:induction false} EntryIsOk(e: Entry)
    requires OkEntry(e)
    ensures Ok(EntryPieces(e))
  {
    NameMeans(e);
    if e.Pair? {
      PrintAppend(Head(e) + [Code(':')], e.value);
      PrintAppend(Head(e), [Code(':')]);
      assert Ok([Code(':')]);
    }
  }

  lemma {:induction false} BodyIsOk(entries: seq<Entry>, trailing: bool, tail: seq<Piece>)
    requires Trivia(tail) && forall e <- entries :: OkEntry(e)
    ensures Ok(Body(entries, trailing, tail))
    decreases |entries|
  {
    if entries != [] {
      EntryIsOk(entries[0]);
      if |entries| == 1 && !trailing {
        PrintAppend(EntryPieces(entries[0]), tail);
      } else {
        BodyIsOk(entries[1..], trailing, tail);
        PrintAppend(EntryPieces(entries[0]) + [Code(',')], Body(entries[1..], trailing, tail));
        PrintAppend(EntryPieces(entries[0]), [Code(',')]);
        assert Ok([Code(',')]);
      }
    }
  }

  lemma {:induction false} ArgumentsTrim(c: Call)
    requires OkCall(c)
    ensures Ok(Arguments(c))
    ensures Trim(Print(Arguments(c))) == "{" + Print(Body(c.entries, c.trailing, c.tail)) + "}"
  {
    hide Trim, Print, Ok, OkEntry, Body;
    var body := Body(c.entries, c.trailing, c.tail);
    BodyIsOk(c.entries, c.trailing, c.tail);
    PrintThree(Codes(c.before), [Group('{', body, '}')], Codes(c.after));
    BlankPrints(c.before);
    BlankPrints(c.after);
    GroupPrints(body);
    TrimPadded(c.before, "{" + Print(body) + "}", c.after);
  }

  lemma {:induction false} BlankPrints(s: string)
    requires Blank(s)
    ensures Print(Codes(s)) == s && Ok(Codes(s))
  {
    assert forall c <- s :: IsSpace(c) && PlainCode(c);
    CodesPrint(s);
  }

  lemma {:induction false} GroupPrints(body: seq<Piece>)
    ensures Print([Group('{', body, '}')]) == "{" + Print(body) + "}"
    ensures Ok([Group('{', body, '}')]) <==> Ok(body)
  {
    var g := Group('{', body, '}');
    assert [g][1..] == [];
    assert Print([g]) == PrintOne(g) + "";
    assert Ok([g]) <==> OkOne(g);
  }

  /** The two scanners together read the names that the entries leave, whatever follows the call. */
  lemma {:induction false} CallReadsNames(c: Call, suffix: string)
    requires OkCall(c)
    ensures CallKeys(PrintCall(c) + suffix)
         == match FirstUnreadable(Names(c.entries))
            case Some(key) => Unreadable(UnreadableKey(key))
            case None => Readable(Names(c.entries))
  {
    hide Trim, Print, Body, Read, Names, OkEntry;
    var body := Print(Body(c.entries, c.trailing, c.tail));
    ArgumentsTrim(c);
    ArgumentsFound(Arguments(c), suffix);
    var trimmed := Trim(Print(Arguments(c)));
    assert trimmed[1..|trimmed| - 1] == body;
    ReadBody(c.entries, c.trailing, c.tail, []);
    assert [] + Names(c.entries) == Names(c.entries);
    assert KeysOf(body) == Finish(Read(body, FRESH));
  }

  /** The identifiers a call binds, in order. */
  function IdentifierKeys(entries: seq<Entry>): seq<string> {
    if entries == [] then []
    else
      var e := entries[0];
      (if e.Short? then [e.name] else if e.Pair? && e.key.Ident? then [e.key.name] else [])
      + IdentifierKeys(entries[1..])
  }

  predicate Concealing(e: Entry) { !HasIdentifier(e) && !HasQuotedKey(e) }

  lemma {:induction false} FirstOfKept(name: string, names: seq<string>)
    ensures FirstUnreadable(Kept(name) + names).None?
            <==> (name == "" || Identifier(name)) && FirstUnreadable(names).None?
  {
    if name == "" {
      assert Kept(name) + names == names;
    } else {
      assert (Kept(name) + names)[1..] == names;
    }
  }

  lemma {:induction false} NoneConceals(entries: seq<Entry>)
    requires forall e <- entries :: OkEntry(e)
    ensures FirstUnreadable(Names(entries)).None? <==> forall e <- entries :: !Concealing(e)
  {
    hide FirstUnreadable, Name, OkEntry, Identifier;
    if entries != [] {
      var e := entries[0];
      NameMeans(e);
      NoneConceals(entries[1..]);
      FirstOfKept(Name(e), Names(entries[1..]));
      assert forall x <- entries :: x == e || x in entries[1..];
    } else {
      NothingUnreadable();
    }
  }

  lemma {:induction false} NothingUnreadable()
    ensures FirstUnreadable([]).None?
  {
  }

  lemma {:induction false} NamesAreIdentifiers(entries: seq<Entry>)
    requires forall e <- entries :: OkEntry(e) && !Concealing(e)
    ensures Names(entries) == IdentifierKeys(entries)
  {
    hide Name, OkEntry, Identifier;
    if entries != [] {
      NameMeans(entries[0]);
      NamesAreIdentifiers(entries[1..]);
    }
  }

  lemma {:induction false} NamesOfEntries(entries: seq<Entry>)
    requires forall e <- entries :: OkEntry(e)
    ensures FirstUnreadable(Names(entries)).None? <==> forall e <- entries :: !Concealing(e)
    ensures FirstUnreadable(Names(entries)).None? ==> Names(entries) == IdentifierKeys(entries)
  {
    hide Names, IdentifierKeys, OkEntry;
    NoneConceals(entries);
    if forall e <- entries :: !Concealing(e) {
      NamesAreIdentifiers(entries);
    }
  }

  /** Main result: with identifier keys and shorthands only, the reader returns exactly the keys, in order. */
  lemma {:induction false} IdentifierKeysAreRead(c: Call, prefix: string, suffix: string)
    requires OkCall(c) && forall e <- c.entries :: HasIdentifier(e)
    ensures CallKeys((prefix + PrintCall(c) + suffix)[|prefix|..]) == Readable(IdentifierKeys(c.entries))
    ensures |IdentifierKeys(c.entries)| == |c.entries|
  {
    assert (prefix + PrintCall(c) + suffix)[|prefix|..] == PrintCall(c) + suffix;
    CallReadsNames(c, suffix);
    NamesOfEntries(c.entries);
    CountIdentifiers(c.entries);
  }

  lemma {:induction false} CountIdentifiers(entries: seq<Entry>)
    ensures |IdentifierKeys(entries)| <= |entries|
    ensures |IdentifierKeys(entries)| == |entries| <==> forall e <- entries :: HasIdentifier(e)
  {
    if entries != [] {
      CountIdentifiers(entries[1..]);
      if forall e <- entries :: HasIdentifier(e) {
        assert HasIdentifier(entries[0]) && forall e <- entries[1..] :: HasIdentifier(e);
      } else {
        var e :| e in entries && !HasIdentifier(e);
        assert e == entries[0] || e in entries[1..];
      }
    }
  }

  /**
   For every printed call: the answer is readable exactly when no key is computed and no entry is a
   spread, and a readable answer hides a key exactly when some key is quoted.
   */
  lemma {:induction false} QuotedKeysAreHidden(c: Call, suffix: string)
    requires OkCall(c)
    ensures var result := CallKeys(PrintCall(c) + suffix);
            && (result.Readable? <==> forall e <- c.entries :: !Concealing(e))
            && (result.Readable? ==> result.keys == IdentifierKeys(c.entries))
            && (result.Readable? ==> (|result.keys| < |c.entries| <==> exists e <- c.entries :: HasQuotedKey(e)))
  {
    CallReadsNames(c, suffix);
    NamesOfEntries(c.entries);
    CountIdentifiers(c.entries);
  }

  /** The promise that no key is hidden fails on `({'port': 1})`: it reads as a call with no keys. */
  lemma {:induction false} QuotedPortIsHidden()
    ensures CallKeys("({'port': 1})") == Readable([])
  {
    var key := StringKey(Single, [Plain('p'), Plain('o'), Plain('r'), Plain('t')]);
    var e := Pair([], key, [], [Code(' '), Code('1')]);
    var c := Call("", [e], false, [], "");
    hide CallKeys, PrintCall, OkCall, TrueSlashes, OkUnits, Ok;
    QuotedPortIsCall(e);
    QuotedPortPrints();
    QuotedKeysAreHidden(c, "");
    assert PrintCall(c) + "" == PrintCall(c);
    assert IdentifierKeys([e]) == IdentifierKeys([e][1..]) == [];
  }

  lemma {:induction false} QuotedPortIsOk()
    ensures OkUnits(Single, [Plain('p'), Plain('o'), Plain('r'), Plain('t')])
    ensures NoTopComma([Code(' '), Code('1')])
  {
    assert OkUnits(Single, [Plain('r'), Plain('t')]);
    assert Ok([Code('1')]);
  }

  lemma {:induction false} QuotedPortIsCall(e: Entry)
    requires e.Pair? && e.lead == e.mid == [] && e.value == [Code(' '), Code('1')]
    requires e.key == StringKey(Single, [Plain('p'), Plain('o'), Plain('r'), Plain('t')])
    ensures OkCall(Call("", [e], false, [], ""))
  {
    hide TrueSlashes, OkUnits, Ok;
    QuotedPortIsOk();
    assert OkEntry(e) by { NothingIsOk(); }
    assert Body([e], false, []) == EntryPieces(e) + [] == EntryPieces(e);
    assert forall p <- EntryPieces(e) :: !p.Divide? && !p.Regex? && !p.Group?;
    NoSlashes(EntryPieces(e), BehindOperator);
    NothingIsOk();
  }

  lemma {:induction false} NothingIsOk()
    ensures Ok([]) && Blank("")
  {
  }

  lemma {:induction false} PortUnitsPrint()
    ensures PrintOne(Str(Single, [Plain('p'), Plain('o'), Plain('r'), Plain('t')])) == "'port'"
  {
    var units := [Plain('p'), Plain('o'), Plain('r'), Plain('t')];
    assert units[1..] == [Plain('o'), Plain('r'), Plain('t')];
    assert units[1..][1..] == [Plain('r'), Plain('t')];
    assert PrintUnits([Plain('r'), Plain('t')]) == "rt";
  }

  lemma {:induction false} PortBodyPrints(str: Piece)
    ensures Print([str, Code(':'), Code(' '), Code('1')]) == PrintOne(str) + ": 1"
  {
    hide Print, PrintOne;
    var last := [Code('1')];
    PrintCons(Code('1'), []);
    PrintCons(Code(' '), last);
    PrintCons(Code(':'), [Code(' ')] + last);
    PrintCons(str, [Code(':')] + ([Code(' ')] + last));
    CodesPrintOne();
    assert [Code('1')] + [] == last;
    assert [str, Code(':'), Code(' '), Code('1')] == [str] + ([Code(':')] + ([Code(' ')] + last));
  }

  lemma {:induction false} CodesPrintOne()
    ensures forall c :: PrintOne(Code(c)) == [c]
    ensures Print([]) == ""
  {
  }

  lemma {:induction false} QuotedPortPrints()
    ensures var units := [Plain('p'), Plain('o'), Plain('r'), Plain('t')];
            var e := Pair([], StringKey(Single, units), [], [Code(' '), Code('1')]);
            PrintCall(Call("", [e], false, [], "")) == "({'port': 1})"
  {
    hide Print, PrintOne;
    var units := [Plain('p'), Plain('o'), Plain('r'), Plain('t')];
    var str := Str(Single, units);
    PortUnitsPrint();
    PortBodyPrints(str);
    PortCallShape(units);
    GroupPrints([str, Code(':'), Code(' '), Code('1')]);
    PortText();
  }

  lemma {:induction false} PortCallShape(units: seq<Unit>)
    ensures var e := Pair([], StringKey(Single, units), [], [Code(' '), Code('1')]);
            Arguments(Call("", [e], false, [], ""))
            == [Group('{', [Str(Single, units), Code(':'), Code(' '), Code('1')], '}')]
  {
    var e := Pair([], StringKey(Single, units), [], [Code(' '), Code('1')]);
    assert Codes("") == [];
    assert EntryPieces(e) == [Str(Single, units), Code(':'), Code(' '), Code('1')];
    assert Body([e], false, []) == EntryPieces(e);
    assert Arguments(Call("", [e], false, [], "")) == [] + [Group('{', Body([e], false, []), '}')] + [];
  }

  lemma {:induction false} PortText()
    ensures "(" + ("{" + ("'port'" + ": 1") + "}") + ")" == "({'port': 1})"
  {
  }

  // ---------- texts that hide entries ----------

  predicate OpensNoComment(rest: string) { rest == "" || (rest[0] != '/' && rest[0] != '*') }

  lemma {:induction false} SlashBefore(rest: string, depth: nat, r: Reader)
    requires OpensNoComment(rest) && r.mode == InCode
    ensures Balanced("/" + rest, depth, InCode) == Shift(Balanced(rest, depth, InCode), 1)
    ensures Read("/" + rest, r) == Read(rest, Past(r, "/"))
  {
    assert Drop("/" + rest, 1) == rest;
  }

  /** A text in a value that both scanners pass over, up to the end of the literal. */
  ghost predicate PassedOver(v: string) {
    && Balanced(v + "})", 2, InCode) == Some(|v| + 1)
    && forall keys :: Read(v, InValue(keys)) == InValue(keys)
  }

  lemma {:induction false} PlainIsQuiet(t: string)
    requires forall c <- t :: PlainCode(c)
    ensures Quiet(t)
  {
    assert forall i :: 0 <= i < |t| ==> t[i] in t;
  }

  lemma {:induction false} IdentifierIsPlain(name: string)
    requires Identifier(name)
    ensures forall c <- name :: PlainCode(c) && !IsSpace(c) && c != ',' && c != ':'
  {
    forall c | c in name ensures PlainCode(c) && !IsSpace(c) && c != ',' && c != ':' {
      assert IdPart(c);
    }
  }

  lemma {:induction false} NameIsQuiet(name: string)
    requires Identifier(name)
    ensures Quiet(name) && Quiet(name + ":") && ',' !in name && ':' !in name && Trim(name) == name
  {
    hide Quiet, Trim, Identifier;
    IdentifierIsPlain(name);
    PlainIsQuiet(name);
    PlainIsQuiet(name + ":");
    assert name != "" by { IdentifierStarts(name); }
    TrimPadded("", name, "");
    assert "" + name + "" == name;
  }

  lemma {:induction false} IdentifierStarts(name: string)
    requires Identifier(name)
    ensures name != ""
  {
  }

  lemma {:induction false} ShiftSome(k: nat, n: nat)
    ensures Shift(Some(k), n) == Some(k + n)
  {
  }

  lemma {:induction false} BracketsClose()
    ensures Balanced("})", 2, InCode) == Some(1) && OpensNoComment("})") && FRESH.mode == InCode
  {
    hide Balanced;
    BalancedClose(')', "", 1);
    assert [')'] + "" == ")";
    BalancedClose('}', ")", 2);
    assert ['}'] + ")" == "})";
  }

  lemma {:induction false} PassedOverMeans(v: string, keys: seq<string>)
    requires PassedOver(v)
    ensures Balanced(v + "})", 2, InCode) == Some(|v| + 1) && Read(v, InValue(keys)) == InValue(keys)
  {
    hide Balanced, Read;
  }

  lemma {:induction false} ArgumentsUpTo(s: string, k: nat)
    requires Balanced(s, 0, InCode) == Some(k) && 1 <= k <= |s|
    ensures ArgumentsOf(s) == Some(s[1..k])
  {
    hide Balanced;
  }

  lemma {:induction false} ValueTexts(name: string, v: string)
    ensures var text, inside := "({" + name + ":" + v + "})", name + ":" + (v + "})");
            && text == ['('] + (['{'] + inside) && |text| == |inside| + 2
            && text[1..|text| - 1] == "{" + name + ":" + v + "}"
  {
  }

  lemma {:induction false} ValueBalances(name: string, v: string)
    requires Identifier(name) && PassedOver(v)
    ensures ArgumentsOf("({" + name + ":" + v + "})") == Some("{" + name + ":" + v + "}")
  {
    hide *;
    var text, inside := "({" + name + ":" + v + "})", name + ":" + (v + "})");
    ValueTexts(name, v);
    PassedOverMeans(v, []);
    NameIsQuiet(name);
    BalancedQuiet(name + ":", v + "})", 2);
    ShiftSome(|v| + 1, |name + ":"|);
    Brackets();
    BalancedOpen('{', inside, 1);
    ShiftSome(|inside| - 1, 1);
    BalancedOpen('(', ['{'] + inside, 0);
    ShiftSome(|inside|, 1);
    ArgumentsUpTo(text, |text| - 1);
  }

  lemma {:induction false} Brackets()
    ensures Opening('(') && Opening('{') && !Closing('(') && !Closing('{')
  {
  }

  lemma {:induction false} FreshReader(name: string)
    ensures FRESH.mode == InCode && FRESH.depth == 0 && Past(FRESH, name) == FRESH.(token := name)
    ensures name != "" && Trim(name) == name ==> CodeChar(FRESH.(token := name), ':') == InValue([name])
  {
    hide Trim;
    assert "" + name == name && [] + [name] == [name];
  }

  lemma {:induction false} ValueReads(name: string, v: string)
    requires Identifier(name) && PassedOver(v)
    ensures KeysOf(name + ":" + v) == [name]
  {
    hide Read, Quiet, Trim, PassedOver, Identifier, CodeChar, Past, Flush;
    PassedOverMeans(v, [name]);
    NameIsQuiet(name);
    IdentifierStarts(name);
    FreshReader(name);
    ReadQuiet(name, ":" + v, FRESH);
    assert name + ":" + v == name + (":" + v) && [':'] + v == ":" + v;
    ReadChar(':', v, FRESH.(token := name));
  }

  /** Whatever stands in a text that is passed over, the call reads as having the one key before it. */
  lemma {:induction false} ValueHides(name: string, v: string)
    requires Identifier(name) && PassedOver(v)
    ensures CallKeys("({" + name + ":" + v + "})") == Readable([name])
  {
    hide KeysOf, ArgumentsOf, Trim, Identifier, PassedOver;
    var literal := "{" + name + ":" + v + "}";
    ValueBalances(name, v);
    TrimPadded("", literal, "");
    assert "" + literal + "" == literal;
    assert literal[1..|literal| - 1] == name + ":" + v;
    ValueReads(name, v);
    assert FirstUnreadable([name]).None? by { assert [name][1..] == []; }
  }

  /** A slash, a quote and all up to the next quote, and a slash. */
  function QuotedRegex(units: seq<Unit>): string { " /" + (PrintOne(Str(Single, units)) + "/") }

  lemma {:induction false} QuotedStarts(units: seq<Unit>)
    ensures var quoted := PrintOne(Str(Single, units));
            && QuotedRegex(units) == [' '] + ("/" + (quoted + "/"))
            && QuotedRegex(units) + "})" == [' '] + ("/" + (quoted + "/})"))
            && OpensNoComment(quoted + "/})") && OpensNoComment(quoted + "/") && PlainCode(' ')
            && |QuotedRegex(units)| == |quoted| + 3
    ensures OkUnits(Single, units) ==> Skippable(Str(Single, units))
  {
  }

  lemma {:induction false} QuotedRegexBalances(units: seq<Unit>)
    requires OkUnits(Single, units)
    ensures Balanced(QuotedRegex(units) + "})", 2, InCode) == Some(|QuotedRegex(units)| + 1)
  {
    hide *;
    var str := Str(Single, units);
    var quoted := PrintOne(str);
    QuotedStarts(units);
    BracketsClose();
    SlashBefore("})", 2, FRESH);
    ShiftSome(1, 1);
    assert "/" + "})" == "/})";
    BalancedNonCode(str, "/})", 2);
    ShiftSome(2, |quoted|);
    SlashBefore(quoted + "/})", 2, FRESH);
    ShiftSome(|quoted| + 2, 1);
    BalancedPlain(' ', "/" + (quoted + "/})"), 2);
    ShiftSome(|quoted| + 3, 1);
  }

  lemma {:induction false} QuotedRegexReads(units: seq<Unit>, keys: seq<string>)
    requires OkUnits(Single, units)
    ensures Read(QuotedRegex(units), InValue(keys)) == InValue(keys)
  {
    hide Read, PrintOne, OkUnits, QuotedRegex, Skippable;
    var quoted := PrintOne(Str(Single, units));
    QuotedStarts(units);
    ReadChar(' ', "/" + (quoted + "/"), InValue(keys));
    SlashBefore(quoted + "/", 0, InValue(keys));
    ReadNonCode(Str(Single, units), "/", InValue(keys));
    SlashBefore("", 0, InValue(keys));
    assert "/" + "" == "/";
    ReadEmpty(InValue(keys));
  }

  lemma {:induction false} QuotedRegexPasses(units: seq<Unit>)
    requires OkUnits(Single, units)
    ensures PassedOver(QuotedRegex(units))
  {
    hide Balanced, Read, QuotedRegex, OkUnits;
    QuotedRegexBalances(units);
    forall keys ensures Read(QuotedRegex(units), InValue(keys)) == InValue(keys) {
      QuotedRegexReads(units, keys);
    }
  }

  /** A quote in a regular expression opens a string: every entry up to the next quote is hidden. */
  lemma {:induction false} QuoteInRegexHidesEntries(name: string, units: seq<Unit>)
    requires Identifier(name) && OkUnits(Single, units)
    ensures CallKeys("({" + name + ":" + QuotedRegex(units) + "})") == Readable([name])
  {
    QuotedRegexPasses(units);
    ValueHides(name, QuotedRegex(units));
  }

  /** A number, and a comment up to a newline. */
  function Commented(text: string): string { " 1 " + PrintOne(LineComment(text)) }

  lemma {:induction false} CommentPasses(text: string)
    requires '\n' !in text
    ensures PassedOver(Commented(text))
  {
    var comment := LineComment(text);
    hide Balanced, Read, PrintOne, Quiet;
    BracketsClose();
    PlainIsQuiet(" 1 ");
    BalancedNonCode(comment, "})", 2);
    BalancedQuiet(" 1 ", PrintOne(comment) + "})", 2);
    assert Commented(text) + "})" == " 1 " + (PrintOne(comment) + "})");
    forall keys ensures Read(Commented(text), InValue(keys)) == InValue(keys) {
      ReadQuiet(" 1 ", PrintOne(comment), InValue(keys));
      ReadNonCode(comment, "", InValue(keys));
      assert PrintOne(comment) + "" == PrintOne(comment);
      ReadEmpty(InValue(keys));
    }
  }

  /**
   A line comment goes on to the newline for the scanners: what follows any other line terminator in
   it, which is code in JavaScript, is hidden.
   */
  lemma {:induction false} LineEndInCommentHidesEntries(name: string, text: string)
    requires Identifier(name) && '\n' !in text
    ensures CallKeys("({" + name + ":" + Commented(text) + "})") == Readable([name])
  {
    CommentPasses(text);
    ValueHides(name, Commented(text));
  }

  /** After the carriage return `b` is an entry, and it is hidden. */
  lemma {:induction false} CarriageReturnHidesB()
    ensures CallKeys("({a: 1 // c\r, b: 2\n})") == Readable(["a"])
  {
    hide CallKeys;
    LineEndInCommentHidesEntries("a", " c\r, b: 2");
    assert "({" + "a" + ":" + Commented(" c\r, b: 2") + "})" == "({a: 1 // c\r, b: 2\n})";
  }

  const HIDDEN_B: seq<Unit> := [Plain('/'), Plain(','), Plain(' '), Plain('b'), Plain(':'), Plain(' '), Plain('/')]

  /** No key of `({a: /'/, b: /'/})` is quoted, and `b` is hidden. */
  lemma {:induction false} RegexHidesB()
    ensures CallKeys("({a: /'/, b: /'/})") == Readable(["a"])
  {
    hide CallKeys, PrintUnits, OkUnits;
    assert OkUnits(Single, HIDDEN_B) && PrintUnits(HIDDEN_B) == "/, b: /" by { HiddenPrints(); }
    QuoteInRegexHidesEntries("a", HIDDEN_B);
    assert "({" + "a" + ":" + QuotedRegex(HIDDEN_B) + "})" == "({a: /'/, b: /'/})";
  }

  lemma {:induction false} HiddenPrints()
    ensures OkUnits(Single, HIDDEN_B) && PrintUnits(HIDDEN_B) == "/, b: /"
  {
    var last := HIDDEN_B[4..];
    assert HIDDEN_B[1..][1..] == HIDDEN_B[2..] && HIDDEN_B[2..][1..][1..] == last;
    assert last[1..] == [Plain(' '), Plain('/')] && last[1..][1..] == [Plain('/')];
    assert PrintUnits([Plain('/')]) == "/" && OkUnits(Single, [Plain('/')]);
    assert PrintUnits(last) == ": /" && OkUnits(Single, last);
    assert PrintUnits(HIDDEN_B[2..]) == " b: /" && OkUnits(Single, HIDDEN_B[2..]);
  }
}
