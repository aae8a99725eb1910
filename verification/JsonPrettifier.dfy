/** TPrettifier: text written event by event, with one character held back until it is known whether
    it is wanted. */
module JsonPrettifier {

  /** Scalars are numbers and names. Scalars, strings and keys are given as they are to be written,
      strings and keys escaped and with their quotes, if any. */
  datatype Json = Scalar(text: string) | Str(s: string) | Arr(items: seq<Json>) | Obj(members: seq<Member>)

  datatype Member = Member(key: string, value: Json)

  datatype Config = Config(compact: bool, maxPadding: nat, spaces: string)

  // ---------------------------------------------------------------- what should be written

  /** The canonical text: one comma between siblings, a colon after each key, no layout. */
  function Canonical(j: Json): string {
    match j
    case Scalar(t) => t
    case Str(s) => s
    case Arr(items) => "[" + CanonicalItems(items) + "]"
    case Obj(members) => "{" + CanonicalMembers(members) + "}"
  }

  function CanonicalItems(items: seq<Json>): string {
    if items == [] then ""
    else if |items| == 1 then Canonical(items[0])
    else CanonicalItems(items[..|items| - 1]) + "," + Canonical(items[|items| - 1])
  }

  function CanonicalMembers(members: seq<Member>): string {
    if members == [] then ""
    else
      var m := members[|members| - 1];
      (if |members| == 1 then "" else CanonicalMembers(members[..|members| - 1]) + ",")
        + m.key + ":" + Canonical(m.value)
  }

  /** Layout before a value, or before a closing bracket, at this level. */
  function Padding(c: Config, level: nat, close: bool): string {
    if c.compact then ""
    else if level > c.maxPadding || (level == c.maxPadding && close) then " "
    else (if level > 0 || close then (if c.spaces != "" then "\n" else " ") else "") + Repeated(c.spaces, level)
  }

  function Repeated(s: string, n: nat): string { if n == 0 then "" else Repeated(s, n - 1) + s }

  function Space(c: Config): string { if c.compact then "" else " " }

  /** The text of a value at this level, with layout. */
  function Render(c: Config, j: Json, level: nat): string
    decreases j, 0
  {
    match j
    case Scalar(t) => t
    case Str(s) => s
    case Arr(items) =>
      "[" + (if items == [] then Space(c) else Items(c, items, level + 1) + Padding(c, level, true)) + "]"
    case Obj(members) =>
      "{" + (if members == [] then Space(c) else Members(c, members, level + 1) + Padding(c, level, true)) + "}"
  }

  function Items(c: Config, items: seq<Json>, level: nat): string
    decreases items, |items|
  {
    if items == [] then ""
    else
      (if |items| == 1 then "" else Items(c, items[..|items| - 1], level) + ",")
        + (Padding(c, level, false) + Render(c, items[|items| - 1], level))
  }

  function MemberText(c: Config, m: Member, level: nat): string
    decreases m, 1
  {
    Padding(c, level, false) + m.key + Space(c) + ":" + Space(c) + Render(c, m.value, level)
  }

  function Members(c: Config, members: seq<Member>, level: nat): string
    decreases members, |members|
  {
    if members == [] then ""
    else
      (if |members| == 1 then "" else Members(c, members[..|members| - 1], level) + ",")
        + MemberText(c, members[|members| - 1], level)
  }

  /** Without layout the rendered text is the canonical one. */
  lemma {:induction false} CompactIsCanonical(c: Config, j: Json, level: nat)
    requires c.compact
    ensures Render(c, j, level) == Canonical(j)
    decreases j, 0
  {
    match j
    case Scalar(_) =>
    case Str(_) =>
    case Arr(items) => CompactItems(c, items, level + 1);
    case Obj(members) => CompactMembers(c, members, level + 1);
  }

  lemma {:induction false} CompactItems(c: Config, items: seq<Json>, level: nat)
    requires c.compact
    ensures Items(c, items, level) == CanonicalItems(items)
    decreases items, |items|
  {
    if items != [] {
      CompactItems(c, items[..|items| - 1], level);
      CompactIsCanonical(c, items[|items| - 1], level);
    }
  }

  lemma {:induction false} CompactMembers(c: Config, members: seq<Member>, level: nat)
    requires c.compact
    ensures Members(c, members, level) == CanonicalMembers(members)
    decreases members, |members|
  {
    if members != [] {
      CompactMembers(c, members[..|members| - 1], level);
      CompactIsCanonical(c, members[|members| - 1].value, level);
    }
  }

  lemma Joined(a: string, b: string, c: string)
    ensures (a + b) + c == a + (b + c)
  {
  }

  // ---------------------------------------------------------------- the layout

  function Squeezed(s: string): string {
    if s == "" then "" else (if s[0] == ' ' || s[0] == '\n' then "" else [s[0]]) + Squeezed(s[1..])
  }

  lemma {:induction false} SqueezedJoin(a: string, b: string)
    ensures Squeezed(a + b) == Squeezed(a) + Squeezed(b)
  {
    if a == "" {
      assert a + b == b;
    } else {
      SqueezedJoin(a[1..], b);
      assert (a + b)[1..] == a[1..] + b && (a + b)[0] == a[0];
      Joined(if a[0] == ' ' || a[0] == '\n' then "" else [a[0]], Squeezed(a[1..]), Squeezed(b));
    }
  }

  lemma {:induction false} SqueezedBlanks(s: string, n: nat)
    requires Squeezed(s) == ""
    ensures Squeezed(Repeated(s, n)) == ""
  {
    if n > 0 {
      var m := n - 1;
      SqueezedBlanks(s, m);
      SqueezedJoin(Repeated(s, m), s);
    }
  }

  lemma SqueezedPadding(c: Config, level: nat, close: bool)
    requires Squeezed(c.spaces) == ""
    ensures Squeezed(Padding(c, level, close)) == "" && Squeezed(Space(c)) == ""
  {
    SqueezedBlanks(c.spaces, level);
    SqueezedJoin("\n", Repeated(c.spaces, level));
    SqueezedJoin(" ", Repeated(c.spaces, level));
    assert "" + Repeated(c.spaces, level) == Repeated(c.spaces, level);
    assert Squeezed(" ") == "" && Squeezed("\n") == "";
  }

  /** Layout is white space only: without it the text is the canonical one without it. */
  lemma {:induction false} LayoutIsBlank(c: Config, j: Json, level: nat)
    requires Squeezed(c.spaces) == ""
    ensures Squeezed(Render(c, j, level)) == Squeezed(Canonical(j))
    decreases j, 0
  {
    match j
    case Scalar(_) =>
    case Str(_) =>
    case Arr(items) =>
      BlankItems(c, items, level + 1);
      BlankEnd(c, Items(c, items, level + 1), level, items == [], "[", "]");
      SqueezedJoin("[" + CanonicalItems(items), "]");
      SqueezedJoin("[", CanonicalItems(items));
    case Obj(members) =>
      BlankMembers(c, members, level + 1);
      BlankEnd(c, Members(c, members, level + 1), level, members == [], "{", "}");
      SqueezedJoin("{" + CanonicalMembers(members), "}");
      SqueezedJoin("{", CanonicalMembers(members));
  }

  lemma BlankEnd(c: Config, children: string, level: nat, none: bool, open: string, shut: string)
    requires Squeezed(c.spaces) == "" && (none ==> children == "")
    ensures Squeezed(open + (if none then Space(c) else children + Padding(c, level, true)) + shut)
      == Squeezed(open) + Squeezed(children) + Squeezed(shut)
  {
    SqueezedPadding(c, level, true);
    SqueezedJoin(children, Padding(c, level, true));
    var inside := if none then Space(c) else children + Padding(c, level, true);
    SqueezedJoin(open, inside);
    SqueezedJoin(open + inside, shut);
  }

  lemma {:induction false} BlankItems(c: Config, items: seq<Json>, level: nat)
    requires Squeezed(c.spaces) == ""
    ensures Squeezed(Items(c, items, level)) == Squeezed(CanonicalItems(items))
    decreases items, |items|
  {
    if items != [] {
      var m := |items| - 1;
      BlankItems(c, items[..m], level);
      LayoutIsBlank(c, items[m], level);
      SqueezedPadding(c, level, false);
      SqueezedJoin(Padding(c, level, false), Render(c, items[m], level));
      SqueezedJoin(Items(c, items[..m], level), ",");
      SqueezedJoin(if m == 0 then "" else Items(c, items[..m], level) + ",",
        Padding(c, level, false) + Render(c, items[m], level));
      SqueezedJoin(CanonicalItems(items[..m]), ",");
      SqueezedJoin(CanonicalItems(items[..m]) + ",", Canonical(items[m]));
    }
  }

  lemma {:induction false} BlankMembers(c: Config, members: seq<Member>, level: nat)
    requires Squeezed(c.spaces) == ""
    ensures Squeezed(Members(c, members, level)) == Squeezed(CanonicalMembers(members))
    decreases members, |members|
  {
    if members != [] {
      var n := |members| - 1;
      var m := members[n];
      var before := if n == 0 then "" else CanonicalMembers(members[..n]) + ",";
      BlankMembers(c, members[..n], level);
      LayoutIsBlank(c, m.value, level);
      BlankMember(c, m, level);
      SqueezedJoin(Members(c, members[..n], level), ",");
      SqueezedJoin(if n == 0 then "" else Members(c, members[..n], level) + ",", MemberText(c, m, level));
      SqueezedJoin(CanonicalMembers(members[..n]), ",");
      SqueezedMember(before, m.key, Canonical(m.value));
    }
  }

  lemma SqueezedMember(before: string, key: string, value: string)
    ensures Squeezed(before + key + ":" + value)
      == Squeezed(before) + (Squeezed(key) + Squeezed(":") + Squeezed(value))
  {
    SqueezedJoin(before + key + ":", value);
    SqueezedJoin(before + key, ":");
    SqueezedJoin(before, key);
  }

  lemma BlankMember(c: Config, m: Member, level: nat)
    requires Squeezed(c.spaces) == "" && Squeezed(Render(c, m.value, level)) == Squeezed(Canonical(m.value))
    ensures Squeezed(MemberText(c, m, level)) == Squeezed(m.key) + Squeezed(":") + Squeezed(Canonical(m.value))
  {
    var padding, space := Padding(c, level, false), Space(c);
    SqueezedPadding(c, level, false);
    SqueezedJoin(padding + m.key + space + ":" + space, Render(c, m.value, level));
    SqueezedJoin(padding + m.key + space + ":", space);
    SqueezedJoin(padding + m.key + space, ":");
    SqueezedJoin(padding + m.key, space);
    SqueezedJoin(padding, m.key);
  }

  predicate Opens(ch: char) { ch == '[' || ch == '{' }

  predicate Closes(ch: char) { ch == ']' || ch == '}' }

  /** Neither brackets nor line breaks. */
  predicate Flat(s: string) { forall i :: 0 <= i < |s| ==> !Opens(s[i]) && !Closes(s[i]) && s[i] != '\n' }

  predicate Plain(s: string) { Flat(s) && s != "" && s[0] != ' ' }

  /** All texts in the value are plain, so that brackets and line breaks are those of the layout. */
  predicate AllPlain(j: Json) {
    match j
    case Scalar(t) => Plain(t)
    case Str(s) => Plain(s)
    case Arr(items) => forall x :: x in items ==> AllPlain(x)
    case Obj(members) => forall m :: m in members ==> Plain(m.key) && AllPlain(m.value)
  }

  predicate Starts(s: string, p: string) { |p| <= |s| && s[..|p|] == p }

  /** A line, without its line break, at depth d: it has the indentation of the depth, or of one less if it
      begins with a closing bracket, and nothing blank after that. */
  predicate LineStarts(spaces: string, line: string, d: nat) {
    || (Starts(line, Repeated(spaces, d)) && var n := |Repeated(spaces, d)|;
        n < |line| && line[n] != ' ' && !Closes(line[n]))
    || (d > 0 && Starts(line, Repeated(spaces, d - 1)) && var n := |Repeated(spaces, d - 1)|;
        n < |line| && Closes(line[n]))
  }

  /** Every line of the text, which begins at depth d, is indented by the number of brackets that are open. */
  predicate Indented(spaces: string, s: string, d: nat)
    decreases |s|
  {
    if s == "" then true
    else if Opens(s[0]) then Indented(spaces, s[1..], d + 1)
    else if Closes(s[0]) then d > 0 && Indented(spaces, s[1..], d - 1)
    else (s[0] == '\n' ==> LineStarts(spaces, s[1..], d)) && Indented(spaces, s[1..], d)
  }

  /** Text `s` leads from depth d to depth e, and its lines are in order whatever follows. */
  ghost predicate Turns(spaces: string, s: string, d: nat, e: nat) { forall rest :: TurnsAt(spaces, s, d, e, rest) }

  predicate TurnsAt(spaces: string, s: string, d: nat, e: nat, rest: string) {
    Indented(spaces, s + rest, d) == Indented(spaces, rest, e)
  }

  lemma TurnsJoin(spaces: string, s: string, t: string, d: nat, e: nat, g: nat)
    requires Turns(spaces, s, d, e) && Turns(spaces, t, e, g)
    ensures Turns(spaces, s + t, d, g)
  {
    forall rest ensures TurnsAt(spaces, s + t, d, g, rest) {
      assert TurnsAt(spaces, s, d, e, t + rest) && TurnsAt(spaces, t, e, g, rest);
      Joined(s, t, rest);
    }
  }

  lemma {:induction false} FlatTurns(spaces: string, s: string, d: nat)
    requires Flat(s)
    ensures Turns(spaces, s, d, d)
  {
    forall rest ensures TurnsAt(spaces, s, d, d, rest) {
      if s == "" {
        assert s + rest == rest;
      } else {
        FlatTurns(spaces, s[1..], d);
        assert TurnsAt(spaces, s[1..], d, d, rest);
        assert (s + rest)[1..] == s[1..] + rest && (s + rest)[0] == s[0];
      }
    }
  }

  lemma OpenTurns(spaces: string, ch: char, d: nat, e: nat)
    requires Opens(ch) && e == d + 1
    ensures Turns(spaces, [ch], d, e)
  {
    forall rest ensures TurnsAt(spaces, [ch], d, e, rest) { assert ([ch] + rest)[1..] == rest; }
  }

  lemma CloseTurns(spaces: string, ch: char, d: nat, e: nat)
    requires Closes(ch) && d == e + 1
    ensures Turns(spaces, [ch], d, e)
  {
    forall rest ensures TurnsAt(spaces, [ch], d, e, rest) { assert ([ch] + rest)[1..] == rest; }
  }

  lemma {:induction false} FlatRepeated(s: string, n: nat)
    requires Flat(s)
    ensures Flat(Repeated(s, n))
  {
    if n > 0 { FlatRepeated(s, n - 1); }
  }

  /** A line break, its indentation, and what comes first in the line. */
  lemma BreakTurns(spaces: string, n: nat, t: string, d: nat, e: nat)
    requires Flat(spaces) && t != "" && Turns(spaces, t, d, e)
    requires if n == d then t[0] != ' ' && !Closes(t[0]) else n + 1 == d && Closes(t[0])
    ensures Turns(spaces, "\n" + Repeated(spaces, n) + t, d, e)
  {
    var indent := Repeated(spaces, n);
    FlatRepeated(spaces, n);
    FlatTurns(spaces, indent, d);
    TurnsJoin(spaces, indent, t, d, d, e);
    forall rest ensures TurnsAt(spaces, "\n" + indent + t, d, e, rest) {
      var line := indent + t + rest;
      assert TurnsAt(spaces, indent + t, d, e, rest);
      assert Starts(line, indent) && line[|indent|] == t[0];
      assert ("\n" + indent + t) + rest == ['\n'] + line && (['\n'] + line)[1..] == line;
    }
  }

  lemma PaddingTurns(c: Config, level: nat, close: bool, t: string, d: nat, e: nat)
    requires Flat(c.spaces) && t != "" && Turns(c.spaces, t, d, e) && d == (if close then level + 1 else level)
    requires if close then Closes(t[0]) else t[0] != ' ' && !Closes(t[0])
    ensures Turns(c.spaces, Padding(c, level, close) + t, d, e)
  {
    var before := Padding(c, level, close);
    if before == "\n" + Repeated(c.spaces, level) {
      BreakTurns(c.spaces, level, t, d, e);
    } else {
      FlatPadding(c, level, close);
      FlatTurns(c.spaces, before, d);
      TurnsJoin(c.spaces, before, t, d, d, e);
    }
  }

  lemma FlatPadding(c: Config, level: nat, close: bool)
    requires Flat(c.spaces) && Padding(c, level, close) != "\n" + Repeated(c.spaces, level)
    ensures Flat(Padding(c, level, close))
  {
    FlatRepeated(c.spaces, level);
  }

  /** The text of a value begins neither with a blank nor with a closing bracket. */
  lemma FirstOf(c: Config, j: Json, level: nat)
    requires AllPlain(j)
    ensures var r := Render(c, j, level); r != "" && r[0] != ' ' && !Closes(r[0])
  {
  }

  lemma {:induction false} RenderTurns(c: Config, j: Json, level: nat)
    requires Flat(c.spaces) && AllPlain(j)
    ensures Turns(c.spaces, Render(c, j, level), level, level)
    decreases j, 0
  {
    match j
    case Scalar(t) => FlatTurns(c.spaces, t, level);
    case Str(s) => FlatTurns(c.spaces, s, level);
    case Arr(items) =>
      ItemsTurn(c, items, level + 1);
      WholeTurns(c, Items(c, items, level + 1), level, items == [], '[', ']');
      Spelled(c, Items(c, items, level + 1), level, items == [], '[', ']');
    case Obj(members) =>
      MembersTurn(c, members, level + 1);
      WholeTurns(c, Members(c, members, level + 1), level, members == [], '{', '}');
      Spelled(c, Members(c, members, level + 1), level, members == [], '{', '}');
  }

  /** What stands between the brackets, and the closing one. */
  function Closing(c: Config, children: string, level: nat, none: bool, shut: char): string {
    if none then Space(c) + [shut] else children + (Padding(c, level, true) + [shut])
  }

  lemma Spelled(c: Config, children: string, level: nat, none: bool, open: char, shut: char)
    ensures [open] + Closing(c, children, level, none, shut)
      == [open] + (if none then Space(c) else children + Padding(c, level, true)) + [shut]
  {
  }

  lemma WholeTurns(c: Config, children: string, level: nat, none: bool, open: char, shut: char)
    requires Flat(c.spaces) && Opens(open) && Closes(shut) && Turns(c.spaces, children, level + 1, level + 1)
    ensures Turns(c.spaces, [open] + Closing(c, children, level, none, shut), level, level)
  {
    OpenTurns(c.spaces, open, level, level + 1);
    CloseTurns(c.spaces, shut, level + 1, level);
    if none {
      FlatTurns(c.spaces, Space(c), level + 1);
      TurnsJoin(c.spaces, Space(c), [shut], level + 1, level + 1, level);
    } else {
      PaddingTurns(c, level, true, [shut], level + 1, level);
      TurnsJoin(c.spaces, children, Padding(c, level, true) + [shut], level + 1, level + 1, level);
    }
    TurnsJoin(c.spaces, [open], Closing(c, children, level, none, shut), level, level + 1, level);
  }

  lemma {:induction false} ItemsTurn(c: Config, items: seq<Json>, level: nat)
    requires Flat(c.spaces) && forall x :: x in items ==> AllPlain(x)
    ensures Turns(c.spaces, Items(c, items, level), level, level)
    decreases items, |items|
  {
    if items == [] {
      FlatTurns(c.spaces, "", level);
    } else {
      var m := |items| - 1;
      ItemsTurn(c, items[..m], level);
      RenderTurns(c, items[m], level);
      FirstOf(c, items[m], level);
      PaddingTurns(c, level, false, Render(c, items[m], level), level, level);
      MoreTurns(c.spaces, m == 0, Items(c, items[..m], level),
        Padding(c, level, false) + Render(c, items[m], level), level);
    }
  }

  /** One more child, after a comma unless it is the first. */
  lemma MoreTurns(spaces: string, none: bool, children: string, own: string, level: nat)
    requires Turns(spaces, children, level, level) && Turns(spaces, own, level, level)
    ensures Turns(spaces, (if none then "" else children + ",") + own, level, level)
  {
    if none {
      assert "" + own == own;
    } else {
      FlatTurns(spaces, ",", level);
      TurnsJoin(spaces, children, ",", level, level, level);
      TurnsJoin(spaces, children + ",", own, level, level, level);
    }
  }

  lemma {:induction false} MembersTurn(c: Config, members: seq<Member>, level: nat)
    requires Flat(c.spaces) && forall m :: m in members ==> Plain(m.key) && AllPlain(m.value)
    ensures Turns(c.spaces, Members(c, members, level), level, level)
    decreases members, |members|
  {
    if members == [] {
      FlatTurns(c.spaces, "", level);
    } else {
      var n := |members| - 1;
      MembersTurn(c, members[..n], level);
      RenderTurns(c, members[n].value, level);
      MemberTurns(c, members[n], level);
      MoreTurns(c.spaces, n == 0, Members(c, members[..n], level), MemberText(c, members[n], level), level);
    }
  }

  lemma MemberTurns(c: Config, m: Member, level: nat)
    requires Flat(c.spaces) && Plain(m.key) && Turns(c.spaces, Render(c, m.value, level), level, level)
    ensures Turns(c.spaces, MemberText(c, m, level), level, level)
  {
    var padding, space := Padding(c, level, false), Space(c);
    FlatTurns(c.spaces, m.key, level);
    FlatTurns(c.spaces, space, level);
    FlatTurns(c.spaces, ":", level);
    PaddingTurns(c, level, false, m.key, level, level);
    TurnsJoin(c.spaces, padding + m.key, space, level, level, level);
    TurnsJoin(c.spaces, padding + m.key + space, ":", level, level, level);
    TurnsJoin(c.spaces, padding + m.key + space + ":", space, level, level, level);
    TurnsJoin(c.spaces, padding + m.key + space + ":" + space, Render(c, m.value, level), level, level, level);
  }

  /** Every line is indented by the number of brackets that are open, a closing bracket in front not counted. */
  lemma LinesIndented(c: Config, j: Json)
    requires Flat(c.spaces) && AllPlain(j)
    ensures Indented(c.spaces, Render(c, j, 0), 0)
  {
    RenderTurns(c, j, 0);
    assert TurnsAt(c.spaces, Render(c, j, 0), 0, 0, "");
    assert Render(c, j, 0) + "" == Render(c, j, 0);
  }

  /** Blanks around colons and between brackets with nothing inside. */
  lemma Blanks(key: string, c: Config)
    requires !c.compact && 0 < c.maxPadding && c.spaces != ""
    ensures Render(c, Obj([Member(key, Arr([]))]), 0)
      == "{" + ("\n" + c.spaces + key + " " + ":" + " " + "[ ]" + "\n") + "}"
  {
    var m := Member(key, Arr([]));
    MembersOfOne(c, m, 1);
    NoneInside(c);
    OneDeep(c);
  }

  lemma NoneInside(c: Config)
    requires !c.compact
    ensures Render(c, Arr([]), 1) == "[ ]"
  {
  }

  lemma OneDeep(c: Config)
    requires !c.compact && 0 < c.maxPadding && c.spaces != ""
    ensures Padding(c, 1, false) == "\n" + c.spaces && Padding(c, 0, true) == "\n"
  {
    assert Repeated(c.spaces, 0) == "" && "" + c.spaces == c.spaces && "\n" + "" == "\n";
  }

  /** Blanks instead of line breaks below the greatest level. */
  lemma OnOneLine(c: Config, a: string, b: string)
    requires !c.compact && c.maxPadding == 0
    ensures Render(c, Arr([Scalar(a), Scalar(b)]), 0) == "[ " + a + ", " + b + " ]"
  {
    ItemsOfTwo(c, Scalar(a), Scalar(b), 1);
    assert Padding(c, 1, false) == " " && Padding(c, 0, true) == " ";
  }

  lemma ItemsOfTwo(c: Config, a: Json, b: Json, level: nat)
    ensures Items(c, [a, b], level) == Padding(c, level, false) + Render(c, a, level) + ","
      + (Padding(c, level, false) + Render(c, b, level))
  {
    assert [a, b][..1] == [a];
  }

  lemma MembersOfOne(c: Config, m: Member, level: nat)
    ensures Members(c, [m], level) == MemberText(c, m, level)
  {
    assert "" + MemberText(c, m, level) == MemberText(c, m, level);
  }

  function Breaks(s: string): nat { if s == "" then 0 else (if s[0] == '\n' then 1 else 0) + Breaks(s[1..]) }

  lemma {:induction false} BreaksJoin(a: string, b: string)
    ensures Breaks(a + b) == Breaks(a) + Breaks(b)
  {
    if a == "" {
      assert a + b == b;
    } else {
      BreaksJoin(a[1..], b);
      assert (a + b)[1..] == a[1..] + b && (a + b)[0] == a[0];
    }
  }

  lemma {:induction false} NoBreaks(s: string)
    requires Flat(s)
    ensures Breaks(s) == 0
  {
    if s != "" { NoBreaks(s[1..]); }
  }

  /** The lines of a value but the first: one for each child and one for each closing bracket that does not
      follow its opening one, down to the greatest level with line breaks. */
  function Lines(max: nat, j: Json, level: nat): nat
    decreases j, 0
  {
    match j
    case Scalar(_) => 0
    case Str(_) => 0
    case Arr(items) =>
      (if items != [] && level < max then |items| + 1 else 0) + LinesIn(max, items, level + 1)
    case Obj(members) =>
      (if members != [] && level < max then |members| + 1 else 0) + LinesOf(max, members, level + 1)
  }

  function LinesIn(max: nat, items: seq<Json>, level: nat): nat
    decreases items, |items|
  {
    if items == [] then 0
    else LinesIn(max, items[..|items| - 1], level) + Lines(max, items[|items| - 1], level)
  }

  function LinesOf(max: nat, members: seq<Member>, level: nat): nat
    decreases members, |members|
  {
    if members == [] then 0
    else LinesOf(max, members[..|members| - 1], level) + Lines(max, members[|members| - 1].value, level)
  }

  lemma PaddingBreaks(c: Config, level: nat, close: bool)
    requires Flat(c.spaces) && c.spaces != "" && !c.compact
    ensures Breaks(Padding(c, level, close))
      == if (if close then level < c.maxPadding else 0 < level <= c.maxPadding) then 1 else 0
    ensures Breaks(Space(c)) == 0
  {
    FlatRepeated(c.spaces, level);
    NoBreaks(Repeated(c.spaces, level));
    BreaksJoin("\n", Repeated(c.spaces, level));
    NoBreaks(" ");
    assert "" + Repeated(c.spaces, level) == Repeated(c.spaces, level);
    assert Breaks("\n") == 1;
  }

  /** Every child that is not too deep, and every closing bracket after one, has a line of its own. */
  lemma {:induction false} LinesCounted(c: Config, j: Json, level: nat)
    requires Flat(c.spaces) && c.spaces != "" && !c.compact && AllPlain(j)
    ensures Breaks(Render(c, j, level)) == Lines(c.maxPadding, j, level)
    decreases j, 0
  {
    match j
    case Scalar(t) => NoBreaks(t);
    case Str(s) => NoBreaks(s);
    case Arr(items) =>
      ItemLines(c, items, level + 1);
      WholeLines(c, Items(c, items, level + 1), level, items == [], "[", "]");
    case Obj(members) =>
      MemberLines(c, members, level + 1);
      WholeLines(c, Members(c, members, level + 1), level, members == [], "{", "}");
  }

  lemma WholeLines(c: Config, children: string, level: nat, none: bool, open: string, shut: string)
    requires Flat(c.spaces) && c.spaces != "" && !c.compact && |open| == |shut| == 1 && open[0] != '\n'
    requires shut[0] != '\n' && (none ==> children == "")
    ensures Breaks(open + (if none then Space(c) else children + Padding(c, level, true)) + shut)
      == Breaks(children) + if !none && level < c.maxPadding then 1 else 0
  {
    var inside := if none then Space(c) else children + Padding(c, level, true);
    PaddingBreaks(c, level, true);
    BreaksJoin(children, Padding(c, level, true));
    BreaksJoin(open, inside);
    BreaksJoin(open + inside, shut);
    assert open[1..] == "" && shut[1..] == "";
  }

  lemma {:induction false} ItemLines(c: Config, items: seq<Json>, level: nat)
    requires Flat(c.spaces) && c.spaces != "" && !c.compact && level > 0 && forall x :: x in items ==> AllPlain(x)
    ensures Breaks(Items(c, items, level))
      == (if level <= c.maxPadding then |items| else 0) + LinesIn(c.maxPadding, items, level)
    decreases items, |items|
  {
    if items != [] {
      var m := |items| - 1;
      ItemLines(c, items[..m], level);
      LinesCounted(c, items[m], level);
      PaddingBreaks(c, level, false);
      BreaksJoin(Padding(c, level, false), Render(c, items[m], level));
      MoreLines(m == 0, Items(c, items[..m], level), Padding(c, level, false) + Render(c, items[m], level));
    }
  }

  lemma {:induction false} MoreLines(none: bool, children: string, own: string)
    requires none ==> children == ""
    ensures Breaks((if none then "" else children + ",") + own) == Breaks(children) + Breaks(own)
  {
    NoBreaks(",");
    if none {
      assert "" + own == own && Breaks(children) == 0;
    } else {
      BreaksJoin(children, ",");
      BreaksJoin(children + ",", own);
    }
  }

  lemma {:induction false} MemberLines(c: Config, members: seq<Member>, level: nat)
    requires Flat(c.spaces) && c.spaces != "" && !c.compact && level > 0
    requires forall m :: m in members ==> Plain(m.key) && AllPlain(m.value)
    ensures Breaks(Members(c, members, level))
      == (if level <= c.maxPadding then |members| else 0) + LinesOf(c.maxPadding, members, level)
    decreases members, |members|
  {
    if members != [] {
      var n := |members| - 1;
      MemberLines(c, members[..n], level);
      LinesCounted(c, members[n].value, level);
      OwnLines(c, members[n], level);
      MoreLines(n == 0, Members(c, members[..n], level), MemberText(c, members[n], level));
    }
  }

  lemma {:induction false} OwnLines(c: Config, m: Member, level: nat)
    requires Flat(c.spaces) && c.spaces != "" && !c.compact && level > 0 && Plain(m.key)
    ensures Breaks(MemberText(c, m, level))
      == (if level <= c.maxPadding then 1 else 0) + Breaks(Render(c, m.value, level))
  {
    var padding, space := Padding(c, level, false), Space(c);
    PaddingBreaks(c, level, false);
    NoBreaks(m.key);
    NoBreaks(":");
    BreaksJoin(padding, m.key);
    BreaksJoin(padding + m.key, space);
    BreaksJoin(padding + m.key + space, ":");
    BreaksJoin(padding + m.key + space + ":", space);
    BreaksJoin(padding + m.key + space + ":" + space, Render(c, m.value, level));
  }

  // ---------------------------------------------------------------- the writer

  class TPrettifier {
    const c: Config
    var slave: string
    var last: char
    var dirty: bool
    var level: nat

    constructor (c: Config)
      ensures this.c == c && slave == "" && !dirty && level == 0
    {
      this.c, slave, last, dirty, level := c, "", '\0', false, 0;
    }

    /** What is written and what is held. */
    ghost function Text(): string
      reads this
    {
      if dirty then slave + [last] else slave
    }

    method Write(t: string)
      modifies this`slave, this`dirty
      ensures slave == old(Text()) + t && !dirty
    {
      Flush();
      slave := slave + t;
    }

    method Hold(ch: char)
      modifies this`slave, this`last, this`dirty
      ensures slave == old(Text()) && dirty && last == ch
    {
      if dirty {
        Flush();
      }
      last, dirty := ch, true;
    }

    method Flush()
      modifies this`slave, this`dirty
      ensures slave == old(Text()) && !dirty
    {
      if dirty {
        slave := slave + [last];
        dirty := false;
      }
    }

    /** At level 0 padding writes nothing at all, and so leaves the held character where it is. */
    method Pad(close: bool)
      modifies this`slave, this`dirty
      ensures c.compact || level > 0 || close ==> slave == old(Text()) + Padding(c, level, close) && !dirty
      ensures !(c.compact || level > 0 || close) ==>
        slave == old(slave) && dirty == old(dirty) && Padding(c, level, close) == ""
    {
      if c.compact {
        Flush();
        return;
      }
      if level > c.maxPadding || (level == c.maxPadding && close) {
        Write(" ");
        return;
      }
      if level > 0 || close {
        Write(if c.spaces != "" then "\n" else " ");
      }
      Indent();
    }

    method Indent()
      modifies this`slave, this`dirty
      ensures level > 0 ==> slave == old(Text()) + Repeated(c.spaces, level) && !dirty
      ensures level == 0 ==> slave == old(slave) && dirty == old(dirty)
    {
      ghost var text := Text();
      for i := 0 to level
        invariant i == 0 ==> slave == old(slave) && dirty == old(dirty)
        invariant i > 0 ==> slave == text + Repeated(c.spaces, i) && !dirty
      {
        Joined(text, Repeated(c.spaces, i), c.spaces);
        Write(c.spaces);
      }
    }

    method WriteSpace()
      modifies this`slave, this`dirty
      ensures slave == old(Text()) + Space(c) && !dirty
    {
      if c.compact {
        Flush();
        return;
      }
      Write(" ");
    }

    /** The layout before the next value: a space after a key, padding otherwise. */
    ghost function Before(): string
      reads this
    {
      if dirty && last == ':' then Space(c) else Padding(c, level, false)
    }

    /** A comma is held after a value at level 0, and the next value starts without layout. */
    predicate Stuck()
      reads this
    {
      dirty && last != ':' && !c.compact && level == 0
    }

    method OnVal()
      modifies this`slave, this`dirty
      ensures if old(Stuck()) then slave == old(slave) && dirty
        && old(Before()) == "" else slave == old(Text()) + old(Before()) && !dirty
    {
      if dirty && last == ':' {
        WriteSpace();
      } else {
        Pad(false);
      }
    }

    /** A value has been written, and the comma after it is held. */
    ghost predicate Wrote(text: string)
      reads this
    {
      slave == text && dirty && last == ','
    }

    method OnScalar(t: string)
      modifies this`slave, this`last, this`dirty
      ensures Wrote(old(Text()) + old(Before()) + t)
    {
      OnVal();
      Write(t);
      Hold(',');
    }

    /** OnString: the string is written past a character still held, which then follows it. */
    method OnString(s: string)
      modifies this`slave, this`last, this`dirty
      ensures Wrote(if old(Stuck()) then old(slave) + s + [old(last)] else old(Text()) + old(Before()) + s)
    {
      OnVal();
      slave := slave + s;
      Hold(',');
    }

    method OnOpen(ch: char)
      modifies this`slave, this`last, this`dirty, this`level
      ensures slave == old(Text()) + old(Before()) && dirty && last == ch && level == old(level) + 1
    {
      OnVal();
      level := level + 1;
      Hold(ch);
    }

    method OnMapKey(k: string)
      modifies this`slave, this`last, this`dirty
      ensures dirty && last == ':'
      ensures slave ==
        (if old(Stuck()) then old(slave) + k + [old(last)] else old(Text()) + old(Before()) + k) + Space(c)
    {
      OnVal();
      slave := slave + k;
      WriteSpace();
      Hold(':');
    }

    /** Closes a bracket. A comma held before it is dropped; an opening bracket held means that
        nothing was inside. */
    method OnClose(open: char, shut: char) returns (ok: bool)
      modifies this`slave, this`last, this`dirty, this`level
      ensures ok <==> old(level) > 0
      ensures !ok ==> slave == old(slave) && dirty == old(dirty) && last == old(last) && level == old(level)
      ensures ok ==> level == old(level) - 1
      ensures ok ==>
        Wrote((if old(dirty)
        && old(last) == open then old(Text()) + Space(c) else old(slave) + Padding(c, level, true)) + [shut])
    {
      if level == 0 {
        return false;
      }
      level := level - 1;
      if dirty && last == open {
        WriteSpace();
      } else {
        dirty := false;
        Pad(true);
      }
      Write([shut]);
      Hold(',');
      ok := true;
    }

    method OnEnd() returns (ok: bool)
      ensures ok <==> level == 0
    {
      ok := level == 0;
    }

    /** Inside a bracket that opened after `start`: nothing yet, or some children and a comma held. */
    ghost predicate Inside(open: char, start: string, children: string, none: bool)
      reads this
    {
      && level > 0 && dirty
      && if none then slave == start && last == open else slave == start + [open] + children && last == ','
    }

    /** The events of a whole value, from wherever the writer stands: its text in its place, but for a
        string where a comma is stuck. */
    method Feed(j: Json)
      modifies this`slave, this`last, this`dirty, this`level
      ensures level == old(level)
      ensures !(j.Str? && old(Stuck())) ==> Wrote(old(Text()) + old(Before()) + Render(c, j, level))
      ensures j.Str? && old(Stuck()) ==> Wrote(old(slave) + Render(c, j, level) + [old(last)])
      decreases j, 0
    {
      match j {
        case Scalar(t) => OnScalar(t);
        case Str(s) => OnString(s);
        case Arr(items) => FeedArray(items);
        case Obj(members) => FeedObject(members);
      }
    }

    method FeedArray(items: seq<Json>)
      modifies this`slave, this`last, this`dirty, this`level
      ensures Wrote(old(Text()) + old(Before()) + Render(c, Arr(items), level)) && level == old(level)
      decreases items, 2
    {
      OnOpen('[');
      ghost var start := slave;
      FeedItems(items, start);
      var _ := OnClose('[', ']');
      ArrayText(c, items, level, start);
    }

    method FeedItems(items: seq<Json>, ghost start: string)
      requires Inside('[', start, "", true)
      modifies this`slave, this`last, this`dirty, this`level
      ensures level == old(level) && Inside('[', start, Items(c, items, level), items == [])
      decreases items, 1
    {
      for k := 0 to |items|
        invariant level == old(level) && Inside('[', start, Items(c, items[..k], level), k == 0)
      {
        ghost var before := Text();
        Feed(items[k]);
        ItemsGrow(c, items, k, level, start, before);
      }
      assert items[..|items|] == items;
    }

    method FeedObject(members: seq<Member>)
      modifies this`slave, this`last, this`dirty, this`level
      ensures Wrote(old(Text()) + old(Before()) + Render(c, Obj(members), level)) && level == old(level)
      decreases members, 2
    {
      OnOpen('{');
      ghost var start := slave;
      FeedMembers(members, start);
      var _ := OnClose('{', '}');
      ObjectText(c, members, level, start);
    }

    method FeedMembers(members: seq<Member>, ghost start: string)
      requires Inside('{', start, "", true)
      modifies this`slave, this`last, this`dirty, this`level
      ensures level == old(level) && Inside('{', start, Members(c, members, level), members == [])
      decreases members, 1
    {
      for k := 0 to |members|
        invariant level == old(level) && Inside('{', start, Members(c, members[..k], level), k == 0)
      {
        ghost var before := Text();
        FeedMember(members[k]);
        MembersGrow(c, members, k, level, start, before);
      }
      assert members[..|members|] == members;
    }

    method FeedMember(m: Member)
      requires level > 0 && dirty && last != ':'
      modifies this`slave, this`last, this`dirty, this`level
      ensures Wrote(old(Text()) + MemberText(c, m, level)) && level == old(level)
      decreases m, 1
    {
      ghost var text, padding := Text(), Padding(c, level, false);
      OnMapKey(m.key);
      assert slave == text + padding + m.key + Space(c);
      Feed(m.value);
      MemberJoined(text, padding, m.key, Space(c), Render(c, m.value, level));
    }
  }

  lemma MemberJoined(text: string, padding: string, key: string, space: string, value: string)
    ensures text + padding + key + space + [':'] + space + value == text + (padding + key + space + ":" + space + value)
  {
    assert ":" == [':'];
  }

  lemma ArrayText(c: Config, items: seq<Json>, level: nat, start: string)
    ensures items == [] ==> start + ['['] + Space(c) + [']'] == start + Render(c, Arr(items), level)
    ensures items != [] ==>
      start + ['['] + Items(c, items, level + 1) + Padding(c, level, true) + [']'] == start
      + Render(c, Arr(items), level)
  {
    assert "[" == ['['] && "]" == [']'];
  }

  lemma ObjectText(c: Config, members: seq<Member>, level: nat, start: string)
    ensures members == [] ==> start + ['{'] + Space(c) + ['}'] == start + Render(c, Obj(members), level)
    ensures members != [] ==>
      start + ['{'] + Members(c, members, level + 1) + Padding(c, level, true) + ['}'] == start
      + Render(c, Obj(members), level)
  {
    assert "{" == ['{'] && "}" == ['}'];
  }

  lemma ItemsGrow(c: Config, items: seq<Json>, k: nat, level: nat, start: string, before: string)
    requires k < |items|
    requires before == if k == 0 then start + ['['] else start + ['['] + Items(c, items[..k], level) + [',']
    ensures before + Padding(c, level, false) + Render(c, items[k], level) == start + ['[']
      + Items(c, items[..k + 1], level)
  {
    assert items[..k + 1][..k] == items[..k];
    var own := Padding(c, level, false) + Render(c, items[k], level);
    assert Items(c, items[..k + 1], level) == (if k == 0 then "" else Items(c, items[..k], level) + ",") + own;
    MoreInside(start + ['['], if k == 0 then "" else Items(c, items[..k], level), own);
    Joined(before, Padding(c, level, false), Render(c, items[k], level));
  }

  lemma MembersGrow(c: Config, members: seq<Member>, k: nat, level: nat, start: string, before: string)
    requires k < |members|
    requires before == if k == 0 then start + ['{'] else start + ['{'] + Members(c, members[..k], level) + [',']
    ensures before + MemberText(c, members[k], level) == start + ['{'] + Members(c, members[..k + 1], level)
  {
    assert members[..k + 1][..k] == members[..k];
    MoreInside(start + ['{'], if k == 0 then "" else Members(c, members[..k], level), MemberText(c, members[k], level));
  }

  lemma MoreInside(before: string, children: string, own: string)
    ensures before + children + [','] + own == before + (children + "," + own)
  {
  }

  /** The text is in its place just when it consists of the stuck character only. */
  lemma {:induction false} PlaceOfText(before: string, text: string, ch: char)
    ensures before + text + [ch] == before + [ch] + text <==> forall i :: 0 <= i < |text| ==> text[i] == ch
  {
    var x, y, n := before + text + [ch], before + [ch] + text, |before|;
    if x == y {
      for i := 0 to |text|
        invariant forall k :: 0 <= k < i ==> text[k] == ch
      {
        assert x[n + i] == text[i] && y[n + i] == if i == 0 then ch else text[i - 1];
      }
    }
  }

  /** Two values on one writer: the comma is between them unless the second is a string, outside compact
      mode, whose text is not all commas. */
  method PrettifyTwo(c: Config, a: Json, b: Json) returns (text: string)
    ensures b.Str? && !c.compact ==> text == Render(c, a, 0) + Render(c, b, 0) + [',']
    ensures text == Render(c, a, 0) + [','] + Render(c, b, 0) <==>
      !(b.Str? && !c.compact && exists i :: 0 <= i < |b.s| && b.s[i] != ',')
  {
    var p := new TPrettifier(c);
    TopPadding(c, Render(c, a, 0));
    p.Feed(a);
    ghost var held := p.slave + [','];
    TopPadding(c, held);
    assert p.Text() == held && p.Before() == Padding(c, 0, false);
    p.Feed(b);
    text := p.slave;
    if b.Str? { PlaceOfText(Render(c, a, 0), b.s, ','); }
  }

  /** A number and a string on one writer: the comma comes after both. */
  method CommaAfterBoth() returns (text: string)
    ensures text == "1'a'," != "1" + [','] + "'a'"
  {
    text := PrettifyTwo(Config(false, 0, ""), Scalar("1"), Str("'a'"));
    assert "'a'"[0] != ',';
  }

  lemma TopPadding(c: Config, text: string)
    ensures Padding(c, 0, false) == "" && text + "" == text && "" + text == text
  {
  }

  /** One value on a new writer: its text, canonical in compact mode, with one comma left over. */
  method Prettify(c: Config, j: Json) returns (text: string)
    ensures text == Render(c, j, 0)
    ensures c.compact ==> text == Canonical(j)
  {
    var p := new TPrettifier(c);
    p.Feed(j);
    var _ := p.OnEnd();
    text := p.slave;
    if c.compact { CompactIsCanonical(c, j, 0); }
  }
}
