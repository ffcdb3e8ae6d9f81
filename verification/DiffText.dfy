/**
 The text of a Diff, and a reader that gets the Diff back from it: two diffs print alike if
 and only if Equal says they are equal.
 */
module DiffText {
  import opened Wrappers

  datatype Move = Move(from: int, to: int)

  /** A Go slice: nil, or its elements. */
  type Slice<T> = Option<seq<T>>

  datatype Diff = Diff(insertions: Slice<int>, deletions: Slice<int>, updates: Slice<int>, moves: Slice<Move>)

  function Items<T>(s: Slice<T>): seq<T> { if s.None? then [] else s.value }

  /** slices.Equal: same length and same elements, so nil equals empty. */
  predicate SlicesEqual<T(==)>(a: Slice<T>, b: Slice<T>) {
    |Items(a)| == |Items(b)| && forall i | 0 <= i < |Items(a)| :: Items(a)[i] == Items(b)[i]
  }

  /** Diff.Equal, of two pointers either of which may be nil */
  predicate Equal(d: Option<Diff>, e: Option<Diff>) {
    if d.None? && e.None? then true
    else if d.None? || e.None? then false
    else
      && SlicesEqual(d.value.insertions, e.value.insertions)
      && SlicesEqual(d.value.deletions, e.value.deletions)
      && SlicesEqual(d.value.updates, e.value.updates)
      && SlicesEqual(d.value.moves, e.value.moves)
  }

  // ---------------------------------------------------------------- printing

  const DIGITS := "0123456789"

  function Digits(n: nat): (s: string)
    ensures s != [] && forall c <- s :: IsDigit(c)
  {
    if n < 10 then [DIGITS[n]] else Digits(n / 10) + [DIGITS[n % 10]]
  }

  predicate IsDigit(c: char) { '0' <= c <= '9' }

  /** %d */
  function IntText(n: int): string { if n < 0 then "-" + Digits(-n) else Digits(n) }

  /** Move.String */
  function MoveText(m: Move): string { "{from:" + IntText(m.from) + " to:" + IntText(m.to) + "}" }

  /** The elements with single spaces between them. */
  function Spaced<T>(items: seq<T>, text: T -> string): string {
    if items == [] then ""
    else if |items| == 1 then text(items[0])
    else text(items[0]) + " " + Spaced(items[1..], text)
  }

  /** A section is left out when it is empty; a space separates it from an earlier one. */
  function Section<T>(needSpace: bool, name: string, items: seq<T>, text: T -> string): string {
    if items == [] then "" else Lead(needSpace, name) + Spaced(items, text) + "]"
  }

  function Lead(needSpace: bool, name: string): string { (if needSpace then " " else "") + name + ":[" }

  function MovesPart(space: bool, d: Diff): string {
    Section(space, "moves", Items(d.moves), MoveText) + "}"
  }

  function UpdatesPart(space: bool, d: Diff): string {
    Section(space, "updates", Items(d.updates), IntText) + MovesPart(space || Items(d.updates) != [], d)
  }

  function DeletionsPart(space: bool, d: Diff): string {
    Section(space, "deletions", Items(d.deletions), IntText) + UpdatesPart(space || Items(d.deletions) != [], d)
  }

  function InsertionsPart(d: Diff): string {
    Section(false, "insertions", Items(d.insertions), IntText) + DeletionsPart(Items(d.insertions) != [], d)
  }

  /** Diff.String */
  function Text(d: Option<Diff>): string {
    if d.None? then "<nil>" else "{" + InsertionsPart(d.value)
  }

  // ---------------------------------------------------------------- reading

  /** A value read from the front of a text, and the text after it. */
  type Read<T> = Option<(T, string)>

  function DigitSpan(s: string): (n: nat)
    ensures n <= |s|
  {
    if s == [] || !IsDigit(s[0]) then 0 else 1 + DigitSpan(s[1..])
  }

  function Value(s: string): int {
    if s == [] then 0 else 10 * Value(s[..|s| - 1]) + (s[|s| - 1] as int - '0' as int)
  }

  function ReadInt(s: string): Read<int> {
    var negative := s != [] && s[0] == '-';
    var t := if negative then s[1..] else s;
    var n := DigitSpan(t);
    if n == 0 then None else Some((if negative then -Value(t[..n]) else Value(t[..n]), t[n..]))
  }

  function Skip(s: string, prefix: string): Option<string> {
    if prefix <= s then Some(s[|prefix|..]) else None
  }

  function ReadMove(s: string): Read<Move> {
    match Skip(s, "{from:")
    case None => None
    case Some(s1) =>
      match ReadInt(s1)
      case None => None
      case Some((from, s2)) =>
        match Skip(s2, " to:")
        case None => None
        case Some(s3) =>
          match ReadInt(s3)
          case None => None
          case Some((to, s4)) =>
            match Skip(s4, "}")
            case None => None
            case Some(s5) => Some((Move(from, to), s5))
  }

  /** Reads elements up to and including the closing bracket. */
  function ReadSpaced<T>(s: string, read: string -> Read<T>): Read<seq<T>>
    decreases |s|
  {
    match read(s)
    case None => None
    case Some((item, rest)) =>
      if rest == [] || |rest| > |s| then None
      else if rest[0] == ']' then Some(([item], rest[1..]))
      else if rest[0] != ' ' then None
      else
        match ReadSpaced(rest[1..], read)
        case None => None
        case Some((items, end)) => Some(([item] + items, end))
  }

  function ReadSection<T>(needSpace: bool, name: string, s: string, read: string -> Read<T>): Read<seq<T>> {
    match Skip(s, Lead(needSpace, name))
    case None => Some(([], s))
    case Some(t) => ReadSpaced(t, read)
  }

  /** The slice as a reader sees it: an empty one cannot be told from nil. */
  function AsRead<T>(items: seq<T>): Slice<T> { if items == [] then None else Some(items) }

  function Normal(d: Diff): Diff {
    Diff(AsRead(Items(d.insertions)), AsRead(Items(d.deletions)), AsRead(Items(d.updates)), AsRead(Items(d.moves)))
  }

  /** The part of a text after its opening brace. */
  function ParseBody(s0: string): Option<Diff> {
    match ReadSection(false, "insertions", s0, ReadInt)
    case None => None
    case Some((insertions, s1)) =>
      match ReadSection(insertions != [], "deletions", s1, ReadInt)
      case None => None
      case Some((deletions, s2)) =>
        match ReadSection(insertions != [] || deletions != [], "updates", s2, ReadInt)
        case None => None
        case Some((updates, s3)) =>
          match ReadSection(insertions != [] || deletions != [] || updates != [], "moves", s3, ReadMove)
          case None => None
          case Some((moves, s4)) =>
            if s4 != "}" then None
            else Some(Diff(AsRead(insertions), AsRead(deletions), AsRead(updates), AsRead(moves)))
  }

  /** The inverse of Text. */
  function Parse(s: string): Option<Option<Diff>> {
    if s == "<nil>" then Some(None)
    else
      match Skip(s, "{")
      case None => None
      case Some(body) =>
        match ParseBody(body)
        case None => None
        case Some(d) => Some(Some(d))
  }

  // ---------------------------------------------------------------- reading back what was printed

  lemma {:induction false} ValueOfDigits(n: nat)
    ensures Value(Digits(n)) == n
  {
    if n < 10 {
      assert Digits(n)[..0] == [];
    } else {
      ValueOfDigits(n / 10);
      assert Digits(n)[..|Digits(n)| - 1] == Digits(n / 10);
    }
  }

  lemma {:induction false} SpanOfDigits(ds: string, rest: string)
    requires (forall c <- ds :: IsDigit(c)) && (rest == [] || !IsDigit(rest[0]))
    ensures DigitSpan(ds + rest) == |ds|
  {
    if ds == [] {
      assert ds + rest == rest;
    } else {
      assert IsDigit(ds[0]) && (ds + rest)[1..] == ds[1..] + rest;
      SpanOfDigits(ds[1..], rest);
    }
  }

  lemma {:induction false} ReadsDigits(n: nat, rest: string)
    requires rest == [] || !IsDigit(rest[0])
    ensures var t := Digits(n) + rest; var k := DigitSpan(t); k > 0 && Value(t[..k]) == n && t[k..] == rest && IsDigit(t[0])
  {
    ValueOfDigits(n);
    SpanOfDigits(Digits(n), rest);
    var t := Digits(n) + rest;
    assert t[..|Digits(n)|] == Digits(n) && t[|Digits(n)|..] == rest;
    assert Digits(n)[0] in Digits(n);
  }

  lemma {:induction false} ReadsUnsigned(t: string, n: nat, rest: string)
    requires t == Digits(n) + rest && (rest == [] || !IsDigit(rest[0]))
    ensures var k: int := n; ReadInt(t) == Some((k, rest)) && ReadInt("-" + t) == Some((-k, rest))
  {
    ReadsDigits(n, rest);
    assert ("-" + t)[1..] == t;
  }

  lemma {:induction false} ReadsInt(n: int, rest: string)
    requires rest == [] || !IsDigit(rest[0])
    ensures ReadInt(IntText(n) + rest) == Some((n, rest))
  {
    var ds := Digits(if n < 0 then -n else n);
    ReadsUnsigned(ds + rest, if n < 0 then -n else n, rest);
    if n < 0 { assert IntText(n) + rest == "-" + (ds + rest); }
  }

  lemma {:induction false} Skips(prefix: string, rest: string)
    ensures Skip(prefix + rest, prefix) == Some(rest)
  {
    assert (prefix + rest)[|prefix|..] == rest;
  }

  lemma {:induction false} ReadsMove(m: Move, rest: string)
    ensures ReadMove(MoveText(m) + rest) == Some((m, rest))
  {
    var s4 := "}" + rest;
    var s3 := IntText(m.to) + s4;
    var s2 := " to:" + s3;
    var s1 := IntText(m.from) + s2;
    MoveTextInOrder(m, rest);
    Skips("{from:", s1);
    ReadsInt(m.from, s2);
    Skips(" to:", s3);
    ReadsInt(m.to, s4);
    Skips("}", rest);
  }

  lemma {:induction false} MoveTextInOrder(m: Move, rest: string)
    ensures MoveText(m) + rest == "{from:" + (IntText(m.from) + (" to:" + (IntText(m.to) + ("}" + rest))))
  {
    var a, b, c, d := "{from:", IntText(m.from), " to:", IntText(m.to);
    Regroup(a + b + c + d, "}", rest);
    Regroup(a + b + c, d, "}" + rest);
    Regroup(a + b, c, d + ("}" + rest));
    Regroup(a, b, c + (d + ("}" + rest)));
  }

  lemma {:induction false} Regroup(a: string, b: string, c: string)
    ensures (a + b) + c == a + (b + c)
  {}

  /** `read` gets any element back whose text is followed by a space or a bracket. */
  ghost predicate ReadsBack<T(!new)>(text: T -> string, read: string -> Read<T>) {
    forall item, rest: string | rest != [] && (rest[0] == ' ' || rest[0] == ']') :: read(text(item) + rest) == Some((item, rest))
  }

  lemma {:induction false} ReadsSpaced<T(!new)>(items: seq<T>, rest: string, text: T -> string, read: string -> Read<T>)
    requires items != [] && ReadsBack(text, read)
    ensures ReadSpaced(Spaced(items, text) + ("]" + rest), read) == Some((items, rest))
  {
    var s := Spaced(items, text) + ("]" + rest);
    if |items| == 1 {
      assert ("]" + rest)[1..] == rest;
      assert read(text(items[0]) + ("]" + rest)) == Some((items[0], "]" + rest));
      assert [items[0]] == items;
    } else {
      var tail := Spaced(items[1..], text) + ("]" + rest);
      assert s == text(items[0]) + (" " + tail);
      assert read(text(items[0]) + (" " + tail)) == Some((items[0], " " + tail));
      assert (" " + tail)[1..] == tail;
      ReadsSpaced(items[1..], rest, text, read);
      assert [items[0]] + items[1..] == items;
    }
  }

  lemma {:induction false} ReadsSection<T(!new)>(needSpace: bool, name: string, items: seq<T>, rest: string,
                                                 text: T -> string, read: string -> Read<T>)
    requires ReadsBack(text, read)
    requires items == [] ==> !(Lead(needSpace, name) <= rest)
    ensures ReadSection(needSpace, name, Section(needSpace, name, items, text) + rest, read) == Some((items, rest))
  {
    if items == [] {
      assert "" + rest == rest;
    } else {
      var body := Spaced(items, text) + ("]" + rest);
      assert Section(needSpace, name, items, text) + rest == Lead(needSpace, name) + body;
      Skips(Lead(needSpace, name), body);
      ReadsSpaced(items, rest, text, read);
    }
  }

  /** The first letter of a part, after the space if there is one. */
  function Initial(space: bool, part: string): char
    requires part != []
  {
    if space && part[0] == ' ' && |part| > 1 then part[1] else part[0]
  }

  lemma {:induction false} SectionInitial<T>(space: bool, name: string, items: seq<T>, text: T -> string, rest: string)
    requires name != [] && name[0] != ' ' && rest != []
    ensures var part := Section(space, name, items, text) + rest;
            part != [] && if items == [] then part == rest else Initial(space, part) == name[0] && (space ==> part[0] == ' ')
  {}

  /** How the parts after each section begin. */
  lemma {:induction false} Initials(space: bool, d: Diff)
    ensures var part := MovesPart(space, d); part != [] && Initial(space, part) in "m}" && (space ==> part[0] in " }")
    ensures var part := UpdatesPart(space, d); part != [] && Initial(space, part) in "um}" && (space ==> part[0] in " }")
    ensures var part := DeletionsPart(space, d); part != [] && Initial(space, part) in "dum}" && (space ==> part[0] in " }")
  {
    SectionInitial(space, "moves", Items(d.moves), MoveText, "}");
    var afterUpdates := MovesPart(space || Items(d.updates) != [], d);
    assert afterUpdates != [];
    SectionInitial(space, "updates", Items(d.updates), IntText, afterUpdates);
    var afterDeletions := UpdatesPart(space || Items(d.deletions) != [], d);
    assert afterDeletions != [];
    SectionInitial(space, "deletions", Items(d.deletions), IntText, afterDeletions);
  }

  lemma {:induction false} OtherLead(space: bool, name: string, part: string)
    requires part != [] && name != [] && name[0] != ' ' && Initial(space, part) != name[0]
    requires space ==> part[0] in " }"
    ensures !(Lead(space, name) <= part)
  {}

  lemma {:induction false} TextReadsBack()
    ensures ReadsBack(IntText, ReadInt) && ReadsBack(MoveText, ReadMove)
  {
    forall n: int, rest: string | rest != [] && (rest[0] == ' ' || rest[0] == ']')
      ensures ReadInt(IntText(n) + rest) == Some((n, rest))
    {
      ReadsInt(n, rest);
    }
    forall m: Move, rest: string
      ensures ReadMove(MoveText(m) + rest) == Some((m, rest))
    {
      ReadsMove(m, rest);
    }
  }

  lemma {:induction false} ReadsInsertions(d: Diff)
    ensures var i := Items(d.insertions);
            ReadSection(false, "insertions", InsertionsPart(d), ReadInt) == Some((i, DeletionsPart(i != [], d)))
  {
    var i := Items(d.insertions);
    TextReadsBack();
    Initials(false, d);
    if i == [] { OtherLead(false, "insertions", DeletionsPart(false, d)); }
    ReadsSection(false, "insertions", i, DeletionsPart(i != [], d), IntText, ReadInt);
  }

  lemma {:induction false} ReadsDeletions(space: bool, d: Diff)
    ensures var x := Items(d.deletions);
            ReadSection(space, "deletions", DeletionsPart(space, d), ReadInt) == Some((x, UpdatesPart(space || x != [], d)))
  {
    var x := Items(d.deletions);
    TextReadsBack();
    Initials(space, d);
    if x == [] { OtherLead(space, "deletions", UpdatesPart(space, d)); }
    ReadsSection(space, "deletions", x, UpdatesPart(space || x != [], d), IntText, ReadInt);
  }

  lemma {:induction false} ReadsUpdates(space: bool, d: Diff)
    ensures var u := Items(d.updates);
            ReadSection(space, "updates", UpdatesPart(space, d), ReadInt) == Some((u, MovesPart(space || u != [], d)))
  {
    var u := Items(d.updates);
    TextReadsBack();
    Initials(space, d);
    if u == [] { OtherLead(space, "updates", MovesPart(space, d)); }
    ReadsSection(space, "updates", u, MovesPart(space || u != [], d), IntText, ReadInt);
  }

  lemma {:induction false} ReadsMoves(space: bool, d: Diff)
    ensures ReadSection(space, "moves", MovesPart(space, d), ReadMove) == Some((Items(d.moves), "}"))
  {
    TextReadsBack();
    if Items(d.moves) == [] { OtherLead(space, "moves", "}"); }
    ReadsSection(space, "moves", Items(d.moves), "}", MoveText, ReadMove);
  }

  /** Reading the text of a diff gives it back, up to the difference between nil and empty slices. */
  lemma {:induction false} ParseInvertsText(d: Option<Diff>)
    ensures Parse(Text(d)) == Some(if d.None? then None else Some(Normal(d.value)))
  {
    if d.Some? {
      Skips("{", InsertionsPart(d.value));
      assert Text(d)[0] == '{' && "<nil>"[0] == '<';
      ReadsBody(d.value);
    }
  }

  lemma {:induction false} ReadsBody(d: Diff)
    ensures ParseBody(InsertionsPart(d)) == Some(Normal(d))
  {
    var i, x, u := Items(d.insertions) != [], Items(d.deletions) != [], Items(d.updates) != [];
    ReadsInsertions(d);
    ReadsDeletions(i, d);
    ReadsUpdates(i || x, d);
    ReadsMoves(i || x || u, d);
  }

  lemma {:induction false} SlicesEqualExactly<T>(a: Slice<T>, b: Slice<T>)
    ensures SlicesEqual(a, b) <==> Items(a) == Items(b)
    ensures SlicesEqual(a, b) <==> AsRead(Items(a)) == AsRead(Items(b))
  {}

  lemma {:induction false} EqualExactly(d: Diff, e: Diff)
    ensures Equal(Some(d), Some(e)) <==> Normal(d) == Normal(e)
  {
    SlicesEqualExactly(d.insertions, e.insertions);
    SlicesEqualExactly(d.deletions, e.deletions);
    SlicesEqualExactly(d.updates, e.updates);
    SlicesEqualExactly(d.moves, e.moves);
  }

  lemma {:induction false} NormalPrintsAlike(d: Diff)
    ensures Text(Some(Normal(d))) == Text(Some(d))
  {}

  /** Two diffs, nil ones included, print alike if and only if they are equal. */
  lemma {:induction false} PrintingIsFaithful(d: Option<Diff>, e: Option<Diff>)
    ensures Text(d) == Text(e) <==> Equal(d, e)
  {
    ParseInvertsText(d);
    ParseInvertsText(e);
    if d.Some? && e.Some? {
      EqualExactly(d.value, e.value);
      NormalPrintsAlike(d.value);
      NormalPrintsAlike(e.value);
    }
  }

  // ---------------------------------------------------------------- the text in one piece

  function Joined(parts: seq<string>): string {
    if parts == [] then "" else if |parts| == 1 then parts[0] else parts[0] + " " + Joined(parts[1..])
  }

  /** A section, if it is not empty. */
  function Named<T>(name: string, items: seq<T>, text: T -> string): seq<string> {
    if items == [] then [] else [name + ":[" + Spaced(items, text) + "]"]
  }

  /** What the sections from some point on are written as, after earlier ones or not. */
  function Glued(space: bool, parts: seq<string>): string {
    if parts == [] then "" else (if space then " " else "") + Joined(parts)
  }

  lemma {:induction false} JoinedCons(part: string, parts: seq<string>)
    ensures Joined([part] + parts) == part + Glued(true, parts)
  {
    if parts == [] {
      assert [part] + parts == [part] && part + "" == part;
    } else {
      assert ([part] + parts)[1..] == parts;
      Regroup(part, " ", Joined(parts));
    }
  }

  lemma {:induction false} SectionGlues<T>(space: bool, name: string, items: seq<T>, text: T -> string, parts: seq<string>, rest: string)
    requires rest == Glued(space || items != [], parts) + "}"
    ensures Section(space, name, items, text) + rest == Glued(space, Named(name, items, text) + parts) + "}"
  {
    if items == [] {
      assert Named(name, items, text) + parts == parts && "" + rest == rest;
    } else {
      var part, lead := name + ":[" + Spaced(items, text) + "]", if space then " " else "";
      SectionPieces(space, name, items, text);
      JoinedCons(part, parts);
      Regroup(lead, part, rest);
      Regroup(part, Glued(true, parts), "}");
      Regroup(lead, part + Glued(true, parts), "}");
    }
  }

  /** The text of a diff is its sections that are not empty, in this order, joined by single spaces. */
  lemma {:induction false} TextIsJoined(d: Diff)
    ensures Text(Some(d)) == "{" + Joined(Named("insertions", Items(d.insertions), IntText)
                                          + (Named("deletions", Items(d.deletions), IntText)
                                             + (Named("updates", Items(d.updates), IntText)
                                                + Named("moves", Items(d.moves), MoveText)))) + "}"
  {
    var i, x, u := Items(d.insertions) != [], Items(d.deletions) != [], Items(d.updates) != [];
    var moves := Named("moves", Items(d.moves), MoveText);
    var updates := Named("updates", Items(d.updates), IntText) + moves;
    var deletions := Named("deletions", Items(d.deletions), IntText) + updates;
    var insertions := Named("insertions", Items(d.insertions), IntText) + deletions;
    assert moves + [] == moves && Glued(i || x || u || Items(d.moves) != [], []) + "}" == "}";
    SectionGlues(i || x || u, "moves", Items(d.moves), MoveText, [], "}");
    SectionGlues(i || x, "updates", Items(d.updates), IntText, moves, MovesPart(i || x || u, d));
    SectionGlues(i, "deletions", Items(d.deletions), IntText, updates, UpdatesPart(i || x, d));
    SectionGlues(false, "insertions", Items(d.insertions), IntText, deletions, DeletionsPart(i, d));
    assert Glued(false, insertions) == Joined(insertions) by { assert "" + Joined(insertions) == Joined(insertions); }
    Regroup("{", Joined(insertions), "}");
  }

  /** Numbers are written without leading zeros. */
  lemma {:induction false} NoLeadingZeros(n: nat)
    ensures Digits(n)[0] == '0' <==> n == 0
    ensures n == 0 ==> Digits(n) == "0"
  {
    if n >= 10 { NoLeadingZeros(n / 10); }
  }

  // ---------------------------------------------------------------- the builder

  /** A strings.Builder */
  class Builder {
    var text: string

    constructor ()
      ensures text == ""
    {
      text := "";
    }

    method Write(s: string)
      modifies this
      ensures text == old(text) + s
    {
      text := text + s;
    }
  }

  lemma {:induction false} SpacedOneMore<T>(items: seq<T>, item: T, text: T -> string)
    ensures Spaced(items + [item], text) == if items == [] then text(item) else Spaced(items, text) + " " + text(item)
  {
    if items == [] {
      assert (items + [item])[0] == item;
    } else {
      var tail := items[1..];
      assert (items + [item])[1..] == tail + [item];
      SpacedOneMore(tail, item, text);
      if tail == [] {
        assert Spaced(items + [item], text) == text(items[0]) + " " + text(item);
      } else {
        assert Spaced(items + [item], text) == text(items[0]) + " " + (Spaced(tail, text) + " " + text(item));
        assert Spaced(items, text) == text(items[0]) + " " + Spaced(tail, text);
      }
    }
  }

  /** The loop of Diff.String over the moves. */
  method WriteMoves(b: Builder, moves: seq<Move>)
    modifies b
    ensures b.text == old(b.text) + Spaced(moves, MoveText)
  {
    ghost var before := b.text;
    assert before + "" == before;
    var i := 0;
    while i < |moves|
      invariant 0 <= i <= |moves|
      invariant b.text == before + Spaced(moves[..i], MoveText)
    {
      ghost var sofar, next := Spaced(moves[..i], MoveText), MoveText(moves[i]);
      SpacedOneMore(moves[..i], moves[i], MoveText);
      assert moves[..i + 1] == moves[..i] + [moves[i]];
      Regroup(before, sofar, " ");
      Regroup(before, sofar + " ", next);
      if i > 0 {
        b.Write(" ");
      }
      b.Write(MoveText(moves[i]));
      i := i + 1;
    }
    assert moves[..i] == moves;
  }

  lemma {:induction false} SectionPieces<T>(needSpace: bool, name: string, items: seq<T>, text: T -> string)
    requires items != []
    ensures Section(needSpace, name, items, text)
         == (if needSpace then " " else "") + (name + ":[" + Spaced(items, text) + "]")
  {
    var space := if needSpace then " " else "";
    Regroup(space, name, ":[");
    Regroup(space, name + ":[", Spaced(items, text));
    Regroup(space, name + ":[" + Spaced(items, text), "]");
  }

  /** One section of indices, as Diff.String writes three times. */
  method WriteIndices(b: Builder, needSpace: bool, name: string, items: seq<int>) returns (spaceNext: bool)
    modifies b
    ensures b.text == old(b.text) + Section(needSpace, name, items, IntText)
    ensures spaceNext == (needSpace || items != [])
  {
    ghost var before := b.text;
    assert before + "" == before;
    spaceNext := needSpace;
    if |items| > 0 {
      var list := name + ":[" + Spaced(items, IntText) + "]";
      SectionPieces(needSpace, name, items, IntText);
      Regroup(before, if needSpace then " " else "", list);
      if needSpace {
        b.Write(" ");
      }
      b.Write(list);
      spaceNext := true;
    }
  }

  method WriteMovesSection(b: Builder, needSpace: bool, moves: seq<Move>)
    modifies b
    ensures b.text == old(b.text) + Section(needSpace, "moves", moves, MoveText)
  {
    ghost var before, space := b.text, if needSpace then " " else "";
    assert before + "" == before;
    if |moves| > 0 {
      ghost var list := Spaced(moves, MoveText);
      SectionPieces(needSpace, "moves", moves, MoveText);
      assert "moves" + ":[" == "moves:[";
      Regroup(before + space, "moves:[", list);
      Regroup(before + space, "moves:[" + list, "]");
      Regroup(before, space, "moves:[" + list + "]");
      if needSpace {
        b.Write(" ");
      }
      b.Write("moves:[");
      WriteMoves(b, moves);
      b.Write("]");
    }
  }

  /** Diff.String */
  method String(d: Option<Diff>) returns (text: string)
    ensures text == Text(d)
  {
    if d.None? {
      return "<nil>";
    }
    text := StringOf(d.value);
  }

  method StringOf(d: Diff) returns (text: string)
    ensures text == "{" + InsertionsPart(d)
  {
    var b := new Builder();
    b.Write("{");
    assert b.text == "{";
    WriteBody(b, d);
    text := b.text;
  }

  method WriteBody(b: Builder, d: Diff)
    modifies b
    ensures b.text == old(b.text) + InsertionsPart(d)
  {
    ghost var start := b.text;
    var needSpace := WriteIndices(b, false, "insertions", Items(d.insertions));
    Regroup(start, Section(false, "insertions", Items(d.insertions), IntText), DeletionsPart(needSpace, d));
    WriteRest(b, needSpace, d);
  }

  method WriteRest(b: Builder, needSpace: bool, d: Diff)
    modifies b
    ensures b.text == old(b.text) + DeletionsPart(needSpace, d)
  {
    ghost var t1 := b.text;
    var space2 := WriteIndices(b, needSpace, "deletions", Items(d.deletions));
    ghost var t2 := b.text;
    var space3 := WriteIndices(b, space2, "updates", Items(d.updates));
    ghost var t3 := b.text;
    WriteMovesSection(b, space3, Items(d.moves));
    b.Write("}");
    Regroup(t3, Section(space3, "moves", Items(d.moves), MoveText), "}");
    Regroup(t2, Section(space2, "updates", Items(d.updates), IntText), MovesPart(space3, d));
    Regroup(t1, Section(needSpace, "deletions", Items(d.deletions), IntText), UpdatesPart(space2, d));
  }
}
