/** `json_writer` of asn1_utils.cc: a writer that decides on separators and indentation from its own
    state, against a rendering that is defined on trees.

    Names and strings are printed as they are, so they are meant to hold no quotes. */
module JsonWriter {

  datatype Separator = COMMA | NEWLINE | NONE

  // ---- Trees and their rendering

  /** A value; an object and an array differ only in their brackets, and both may name members. */
  datatype Json =
    | Str(text: string) | Num(value: int) | Bool(flag: bool) | Null
    | Obj(members: Members) | Arr(members: Members)

  /** Members in order; an empty name stands for none. */
  datatype Members = Nil | Cons(name: string, value: Json, rest: Members)

  function Digits(n: nat): string
  {
    if n < 10 then [('0' as int + n) as char] else Digits(n / 10) + [('0' as int + n % 10) as char]
  }

  function Decimal(i: int): string
  {
    if i < 0 then "-" + Digits(-i) else Digits(i)
  }

  /** The number that a string of digits spells in base ten. */
  function Spelled(s: string): int
  {
    if |s| == 0 then 0 else 10 * Spelled(s[..|s| - 1]) + (s[|s| - 1] as int - '0' as int)
  }

  predicate AllDigits(s: string)
  {
    forall c | c in s :: '0' <= c <= '9'
  }

  /** The digits spell the number, and no zero stands before another digit. */
  lemma {:induction false} DigitsSpell(n: nat)
    ensures Spelled(Digits(n)) == n && AllDigits(Digits(n)) && |Digits(n)| > 0
    ensures Digits(n)[0] == '0' <==> n == 0
  {
    if n >= 10 {
      DigitsSpell(n / 10);
      var last := [('0' as int + n % 10) as char];
      assert Digits(n) == Digits(n / 10) + last;
      assert Digits(n)[..|Digits(n)| - 1] == Digits(n / 10);
    } else {
      assert Digits(n)[..0] == "";
    }
  }

  /** A negative number is a minus sign and the digits of its opposite. */
  lemma DecimalSpells(i: int)
    ensures if i < 0 then |Decimal(i)| > 1 && Decimal(i)[0] == '-' && Spelled(Decimal(i)[1..]) == -i
            else AllDigits(Decimal(i)) && Spelled(Decimal(i)) == i
  {
    DigitsSpell(if i < 0 then -i else i);
    if i < 0 { assert Decimal(i)[1..] == Digits(-i); }
  }

  /** Two spaces for each level. */
  function Indent(depth: nat): (s: string)
    ensures |s| == 2 * depth
  {
    if depth == 0 then "" else Indent(depth - 1) + "  "
  }

  function Label(name: string): string
  {
    if name == "" then "" else "\"" + name + "\": "
  }

  function Literal(text: string): string
  {
    "\"" + text + "\""
  }

  function Word(flag: bool): string
  {
    if flag then "true" else "false"
  }

  /** A value at a depth: members one level deeper, each on its own line, the closing bracket back on
      the level of the value. */
  function Rendered(v: Json, depth: nat): string
    decreases v, 0
  {
    match v
    case Str(text) => Literal(text)
    case Num(value) => Decimal(value)
    case Bool(flag) => Word(flag)
    case Null => "null"
    case Obj(members) => "{" + Body(members, depth + 1) + "\n" + Indent(depth) + "}"
    case Arr(members) => "[" + Body(members, depth + 1) + "\n" + Indent(depth) + "]"
  }

  /** Nothing for no members, otherwise a line break and the members joined by commas. */
  function Body(members: Members, depth: nat): string
    decreases members, 2
  {
    if members.Nil? then "" else "\n" + Indent(depth) + Joined(members, depth)
  }

  /** One member after another, with a comma and a line break between two of them. */
  function Joined(members: Members, depth: nat): string
    requires members.Cons?
    decreases members, 1
  {
    var first := Label(members.name) + Rendered(members.value, depth);
    if members.rest.Nil? then first else first + ",\n" + Indent(depth) + Joined(members.rest, depth)
  }

  // ---- The writer

  datatype State = State(ss: string, ident: string, sep: Separator)

  const START := State("", "", NONE)

  datatype Call =
    | FieldName(name: string)
    | WriteStr(name: string, text: string) | WriteInt(name: string, value: int)
    | WriteBool(name: string, flag: bool) | WriteNull(name: string)
    | StartObj(name: string) | EndObj | StartArray(name: string) | EndArray

  /** `ident.erase` needs two characters. */
  predicate Allowed(s: State, c: Call)
  {
    (c.EndObj? || c.EndArray?) ==> |s.ident| >= 2
  }

  /** `write_fieldname` */
  function Named(s: State, name: string): State
  {
    State(s.ss + Break(s.sep, s.ident) + Label(name), s.ident, NONE)
  }

  function Break(sep: Separator, ident: string): string
  {
    match sep case COMMA => ",\n" + ident case NEWLINE => "\n" + ident case NONE => ""
  }

  function Put(s: State, text: string): State
  {
    State(s.ss + text, s.ident, COMMA)
  }

  function Opened(s: State, bracket: string): State
  {
    State(s.ss + bracket, s.ident + "  ", NEWLINE)
  }

  function Closed(s: State, bracket: string): State
    requires |s.ident| >= 2
  {
    var ident := s.ident[..|s.ident| - 2];
    State(s.ss + "\n" + ident + bracket, ident, COMMA)
  }

  function Next(s: State, c: Call): State
    requires Allowed(s, c)
  {
    match c
    case FieldName(name) => Named(s, name)
    case WriteStr(name, text) => Put(Named(s, name), Literal(text))
    case WriteInt(name, value) => Put(Named(s, name), Decimal(value))
    case WriteBool(name, flag) => Put(Named(s, name), Word(flag))
    case WriteNull(name) => Put(Named(s, name), "null")
    case StartObj(name) => Opened(Named(s, name), "{")
    case EndObj => Closed(s, "}")
    case StartArray(name) => Opened(Named(s, name), "[")
    case EndArray => Closed(s, "]")
  }

  /** The state after a series of calls; a call that is not allowed ends it. */
  function After(s: State, calls: seq<Call>): State
    decreases |calls|
  {
    if |calls| == 0 || !Allowed(s, calls[0]) then s else After(Next(s, calls[0]), calls[1..])
  }

  /** Every call of the series is allowed when its turn comes. */
  predicate AllAllowed(s: State, calls: seq<Call>)
    decreases |calls|
  {
    |calls| == 0 || (Allowed(s, calls[0]) && AllAllowed(Next(s, calls[0]), calls[1..]))
  }

  lemma {:induction false} AfterConcat(s: State, a: seq<Call>, b: seq<Call>)
    requires AllAllowed(s, a)
    ensures After(s, a + b) == After(After(s, a), b)
    ensures AllAllowed(s, a + b) == AllAllowed(After(s, a), b)
    decreases |a|
  {
    if |a| == 0 {
      assert a + b == b;
    } else {
      assert (a + b)[1..] == a[1..] + b && (a + b)[0] == a[0];
      AfterConcat(Next(s, a[0]), a[1..], b);
    }
  }

  // ---- The calls for a tree

  function CallsFor(name: string, v: Json): seq<Call>
    decreases v, 0
  {
    match v
    case Str(text) => [WriteStr(name, text)]
    case Num(value) => [WriteInt(name, value)]
    case Bool(flag) => [WriteBool(name, flag)]
    case Null => [WriteNull(name)]
    case Obj(members) => [StartObj(name)] + CallsForAll(members) + [EndObj]
    case Arr(members) => [StartArray(name)] + CallsForAll(members) + [EndArray]
  }

  function CallsForAll(members: Members): seq<Call>
    decreases members, 1
  {
    if members.Nil? then [] else CallsFor(members.name, members.value) + CallsForAll(members.rest)
  }

  /** What the writer puts before the next member. */
  function Lead(sep: Separator, depth: nat): string
  {
    Break(sep, Indent(depth))
  }

  function Siblings(members: Members, sep: Separator, depth: nat): string
  {
    if members.Nil? then "" else Lead(sep, depth) + Joined(members, depth)
  }

  lemma IndentDeeper(depth: nat)
    ensures Indent(depth + 1)[..|Indent(depth + 1)| - 2] == Indent(depth)
  {
  }

  /** The writer at a depth, after the text it has produced. */
  predicate At(s: State, ss: string, sep: Separator, depth: nat)
  {
    s == State(ss, Indent(depth), sep)
  }

  lemma One(s: State, c: Call)
    requires Allowed(s, c)
    ensures AllAllowed(s, [c]) && After(s, [c]) == Next(s, c)
  {
    assert [c][1..] == [];
    assert AllAllowed(Next(s, c), []) && After(Next(s, c), []) == Next(s, c);
  }

  lemma {:induction false} WritesValue(s: State, name: string, v: Json, depth: nat)
    requires s.ident == Indent(depth)
    ensures AllAllowed(s, CallsFor(name, v))
    ensures At(After(s, CallsFor(name, v)), s.ss + Lead(s.sep, depth) + Label(name) + Rendered(v, depth), COMMA, depth)
    decreases v, 0
  {
    match v
    case Str(text) => One(s, WriteStr(name, text));
    case Num(value) => One(s, WriteInt(name, value));
    case Bool(flag) => One(s, WriteBool(name, flag));
    case Null => One(s, WriteNull(name));
    case Obj(members) => WritesNested(s, StartObj(name), name, "{", members, EndObj, "}", depth);
    case Arr(members) => WritesNested(s, StartArray(name), name, "[", members, EndArray, "]", depth);
  }

  lemma {:induction false} WritesNested(s: State, start: Call, name: string, open: string, members: Members,
                                        end: Call, close: string, depth: nat)
    requires s.ident == Indent(depth)
    requires (start == StartObj(name) && open == "{" && end == EndObj && close == "}")
             || (start == StartArray(name) && open == "[" && end == EndArray && close == "]")
    ensures AllAllowed(s, [start] + CallsForAll(members) + [end])
    ensures At(After(s, [start] + CallsForAll(members) + [end]),
               s.ss + Lead(s.sep, depth) + Label(name)
               + (open + Body(members, depth + 1) + "\n" + Indent(depth) + close),
               COMMA, depth)
    decreases members, 2
  {
    var head := s.ss + Lead(s.sep, depth) + Label(name);
    var s1 := Next(s, start);
    One(s, start);
    assert At(s1, head + open, NEWLINE, depth + 1);
    WritesMembers(s1, members, depth + 1);
    AfterConcat(s, [start], CallsForAll(members));
    var s2 := After(s1, CallsForAll(members));
    var body := Siblings(members, NEWLINE, depth + 1);
    assert s2.ss == head + open + body && s2.ident == Indent(depth + 1);
    IndentDeeper(depth);
    One(s2, end);
    AfterConcat(s, [start] + CallsForAll(members), [end]);
    assert body == Body(members, depth + 1);
    CloseText(head, open, body, "\n" + Indent(depth) + close, "\n", Indent(depth), close);
  }

  lemma CloseText(head: string, open: string, body: string, tail: string, line: string, indent: string, close: string)
    requires tail == line + indent + close
    ensures head + open + body + line + indent + close == head + (open + body + line + indent + close)
  {
  }

  lemma {:induction false} WritesMembers(s: State, members: Members, depth: nat)
    requires s.ident == Indent(depth)
    ensures AllAllowed(s, CallsForAll(members))
    ensures At(After(s, CallsForAll(members)), s.ss + Siblings(members, s.sep, depth),
               if members.Nil? then s.sep else COMMA, depth)
    decreases members, 1
  {
    if members.Cons? {
      WritesValue(s, members.name, members.value, depth);
      var s1 := After(s, CallsFor(members.name, members.value));
      WritesMembers(s1, members.rest, depth);
      AfterConcat(s, CallsFor(members.name, members.value), CallsForAll(members.rest));
      SiblingsStep(s.ss, members, s.sep, depth);
    } else {
      assert s.ss + "" == s.ss;
    }
  }

  lemma SiblingsStep(ss: string, members: Members, sep: Separator, depth: nat)
    requires members.Cons?
    ensures ss + Lead(sep, depth) + Label(members.name) + Rendered(members.value, depth)
            + Siblings(members.rest, COMMA, depth)
            == ss + Siblings(members, sep, depth)
  {
    var title, value := Label(members.name), Rendered(members.value, depth);
    if members.rest.Nil? {
      Glue(ss, Lead(sep, depth), title, value, "", "");
    } else {
      Glue(ss, Lead(sep, depth), title, value, ",\n" + Indent(depth), Joined(members.rest, depth));
      assert Joined(members, depth) == title + value + ",\n" + Indent(depth) + Joined(members.rest, depth);
      assert title + value + ",\n" + Indent(depth) == title + value + (",\n" + Indent(depth));
    }
  }

  lemma Glue(ss: string, lead: string, title: string, value: string, comma: string, rest: string)
    ensures ss + lead + title + value + (comma + rest) == ss + (lead + (title + value + comma + rest))
  {
  }

  /** The calls for any tree print exactly its rendering. */
  lemma PrintsTree(name: string, v: Json)
    ensures AllAllowed(START, CallsFor(name, v))
    ensures After(START, CallsFor(name, v)).ss == Label(name) + Rendered(v, 0)
  {
    WritesValue(START, name, v, 0);
  }

  // ---- Indentation

  /** Brackets opened less brackets closed. */
  function Depth(calls: seq<Call>): int
  {
    if |calls| == 0 then 0
    else Depth(calls[..|calls| - 1]) + match calls[|calls| - 1]
                                        case StartObj(_) => 1
                                        case StartArray(_) => 1
                                        case EndObj => -1
                                        case EndArray => -1
                                        case _ => 0
  }

  /** After any series of allowed calls, well nested or not, the indentation is twice the depth. */
  lemma {:induction false} IndentFollowsDepth(calls: seq<Call>)
    requires AllAllowed(START, calls)
    ensures |After(START, calls).ident| == 2 * Depth(calls)
    decreases |calls|
  {
    if |calls| > 0 {
      var front, last := calls[..|calls| - 1], calls[|calls| - 1];
      assert calls == front + [last];
      AllowedPrefix(START, front, [last]);
      AfterConcat(START, front, [last]);
      IndentFollowsDepth(front);
      One(After(START, front), last);
    }
  }

  lemma {:induction false} AllowedPrefix(s: State, a: seq<Call>, b: seq<Call>)
    requires AllAllowed(s, a + b)
    ensures AllAllowed(s, a)
    decreases |a|
  {
    if |a| > 0 {
      assert (a + b)[1..] == a[1..] + b && (a + b)[0] == a[0];
      AllowedPrefix(Next(s, a[0]), a[1..], b);
    }
  }

  /** Naming a member in a call of its own is the same as naming it where it starts. */
  lemma NameFirst(s: State, name: string)
    ensures Next(Next(s, FieldName(name)), StartObj("")) == Next(s, StartObj(name))
    ensures Next(Next(s, FieldName(name)), StartArray("")) == Next(s, StartArray(name))
  {
    var n := Named(s, name);
    assert n.ss + "" + Label("") == n.ss;
  }

  // ---- The source's class

  class Writer {
    var ss: string
    var ident: string
    var sep: Separator

    ghost function Now(): State
      reads this
    {
      State(ss, ident, sep)
    }

    constructor ()
      ensures Now() == START
    {
      ss, ident, sep := "", "", NONE;
    }

    method WriteFieldName(name: string)
      modifies this
      ensures Now() == Next(old(Now()), FieldName(name))
    {
      ghost var was := ss;
      if sep == COMMA {
        ss := ss + ",\n" + ident;
      } else if sep == NEWLINE {
        ss := ss + "\n" + ident;
      }
      ghost var mid := ss;
      assert mid == was + Break(sep, ident);
      if |name| > 0 {
        ss := ss + "\"" + name + "\": ";
      }
      assert ss == mid + Label(name);
      sep := NONE;
    }

    method WriteString(name: string, text: string)
      modifies this
      ensures Now() == Next(old(Now()), WriteStr(name, text))
    {
      WriteFieldName(name);
      ss := ss + "\"" + text + "\"";
      sep := COMMA;
    }

    method WriteInteger(name: string, value: int)
      modifies this
      ensures Now() == Next(old(Now()), WriteInt(name, value))
    {
      WriteFieldName(name);
      ss := ss + Decimal(value);
      sep := COMMA;
    }

    method WriteBoolean(name: string, flag: bool)
      modifies this
      ensures Now() == Next(old(Now()), WriteBool(name, flag))
    {
      WriteFieldName(name);
      ss := ss + (if flag then "true" else "false");
      sep := COMMA;
    }

    method WriteNothing(name: string)
      modifies this
      ensures Now() == Next(old(Now()), WriteNull(name))
    {
      WriteFieldName(name);
      ss := ss + "null";
      sep := COMMA;
    }

    method StartObject(name: string)
      modifies this
      ensures Now() == Next(old(Now()), StartObj(name))
    {
      WriteFieldName(name);
      ss := ss + "{";
      ident := ident + "  ";
      sep := NEWLINE;
    }

    method EndObject()
      requires Allowed(Now(), EndObj)
      modifies this
      ensures Now() == Next(old(Now()), EndObj)
    {
      ident := ident[..|ident| - 2];
      ss := ss + "\n" + ident + "}";
      sep := COMMA;
    }

    method StartList(name: string)
      modifies this
      ensures Now() == Next(old(Now()), StartArray(name))
    {
      WriteFieldName(name);
      ss := ss + "[";
      ident := ident + "  ";
      sep := NEWLINE;
    }

    method EndList()
      requires Allowed(Now(), EndArray)
      modifies this
      ensures Now() == Next(old(Now()), EndArray)
    {
      ident := ident[..|ident| - 2];
      ss := ss + "\n" + ident + "]";
      sep := COMMA;
    }
  }
}
