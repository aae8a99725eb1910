/** What the C++ lexer should hand on: the input read one token at a time. */
module CppTokens {

  datatype State =
    | Code
    | CommentBegin
    | String
    | Character
    | OneLineComment
    | MultiLineComment
    | MultiLineCommentEnd
    | Preprocessor

  /** A piece of text of one kind. */
  datatype Piece = Piece(kind: State, data: string)

  /** Where the reading stands: `text` is pending, `saved` is what comments and literals return to, and
      `skip` says that the next character is escaped. */
  datatype Place = Place(state: State, text: string, saved: State, skip: bool)

  // ---------------------------------------------------------------- where a token ends

  /** Place `i` of `s` begins a comment. */
  predicate OpensComment(s: string, i: nat) {
    i + 1 < |s| && s[i] == '/' && (s[i + 1] == '/' || s[i + 1] == '*')
  }

  /** Code ends before a literal, a directive or a comment. */
  predicate EndsCode(s: string, i: nat) {
    i < |s| && (s[i] == '"' || s[i] == '\'' || s[i] == '#' || OpensComment(s, i))
  }

  predicate EndsLine(s: string, i: nat) { i < |s| && s[i] == '\n' }

  predicate EndsComment(s: string, i: nat) { i + 1 < |s| && s[i] == '*' && s[i + 1] == '/' }

  /** Place `i` is escaped in a literal: after a backslash that is not escaped itself. */
  predicate Escaped(s: string, i: nat, skip: bool)
    requires i <= |s|
  {
    if i == 0 then skip else s[i - 1] == '\\' && !Escaped(s, i - 1, skip)
  }

  predicate EndsLiteral(s: string, i: nat, quote: char, skip: bool) {
    i < |s| && s[i] == quote && !Escaped(s, i, skip)
  }

  /** Place `i` is joined to the line before in a directive: after a backslash, with slashes between them or not. */
  predicate Continued(s: string, i: nat, skip: bool)
    requires i <= |s|
  {
    if i == 0 then skip else s[i - 1] == '\\' || (s[i - 1] == '/' && Continued(s, i - 1, skip))
  }

  /** The text of a directive runs up to a literal, a comment or the end of its line. */
  predicate EndsDirective(s: string, i: nat, skip: bool) {
    i < |s| && (s[i] == '"' || s[i] == '\'' || (s[i] == '\n' && !Continued(s, i, skip)) || OpensComment(s, i))
  }

  predicate Ends(p: Place, s: string, i: nat) {
    match p.state
    case Code => EndsCode(s, i)
    case OneLineComment => EndsLine(s, i)
    case MultiLineComment => EndsComment(s, i)
    case String => EndsLiteral(s, i, '"', p.skip)
    case Character => EndsLiteral(s, i, '\'', p.skip)
    case Preprocessor => EndsDirective(s, i, p.skip)
    case _ => false
  }

  /** The first place from `i` on where the text of this state ends, or the end of `s`. */
  function FirstEnd(p: Place, s: string, i: nat): (j: nat)
    requires i <= |s|
    ensures i <= j <= |s| && (forall k :: i <= k < j ==> !Ends(p, s, k)) && (j < |s| ==> Ends(p, s, j))
    decreases |s| - i
  {
    if i == |s| || Ends(p, s, i) then i else FirstEnd(p, s, i + 1)
  }

  // ---------------------------------------------------------------- token by token

  /** The pieces handed on while `s` is read from place `p`, without what is pending in the end. */
  function Pieces(p: Place, s: string): seq<Piece>
    decreases |s| + (if p.state.CommentBegin? then 1 else 0), if Reading(p) then 0 else 1
  {
    match p.state
    case CommentBegin => if p.saved.Code? || p.saved.Preprocessor? then Pieces(p.(state := p.saved), "/" + s) else []
    case MultiLineCommentEnd =>
      if s != "" && s[0] == '/' then [Piece(MultiLineCommentEnd, p.text + "/")] + Pieces(Back(p, false), s[1..])
      else Pieces(p.(state := MultiLineComment), s)
    case _ =>
      var j := FirstEnd(p, s, 0);
      if j == |s| then [] else Given(p, s, j) + Pieces(Next(p, s, j), s[j + Length(p, s, j)..])
  }

  /** After a comment, on to where it came from, or to code if it went over a line end. */
  function Back(p: Place, newLine: bool): Place {
    var z := if newLine || !p.saved.Preprocessor? then Code else Preprocessor;
    Place(z, "", z, p.skip)
  }

  /** The piece that ends at `j`, if it is handed on. */
  function Given(p: Place, s: string, j: nat): seq<Piece>
    requires j < |s|
  {
    match p.state
    case Code => [Piece(Code, p.text + s[..j])]
    case OneLineComment => [Piece(OneLineComment, p.text + s[..j])]
    case MultiLineComment => if j + 1 < |s| then [Piece(MultiLineCommentEnd, p.text + s[..j + 2])] else []
    case Preprocessor =>
      if s[j] == '\n' then [Piece(Preprocessor, p.text + s[..j + 1])]
      else if s[j] == '/' then [Piece(Preprocessor, p.text + s[..j])]
      else []
    case _ => if p.saved.Preprocessor? then [] else [Piece(p.state, p.text + s[..j + 1])]
  }

  /** How many characters at `j` decide what comes next. */
  function Length(p: Place, s: string, j: nat): (n: nat)
    requires j < |s|
    ensures 1 <= n <= |s| - j
  {
    if (p.state.MultiLineComment? || ((p.state.Code? || p.state.Preprocessor?) && s[j] == '/'))
      && j + 1 < |s| then 2 else 1
  }

  /** What comes next. */
  function Next(p: Place, s: string, j: nat): Place
    requires j < |s|
  {
    match p.state
    case Code => Opened(s, j, Code, [s[j]], p.skip)
    case OneLineComment => Place(Code, "\n", Code, p.skip)
    case MultiLineComment => Back(p, '\n' in s[..j])
    case Preprocessor =>
      if s[j] == '\n' then Place(Code, "", Code, false)
      else Opened(s, j, Preprocessor, p.text + s[..j + 1], Continued(s, j, p.skip))
    case _ =>
      if p.saved.Preprocessor?
      then Place(Preprocessor, p.text + s[..j + 1], Preprocessor, false)
      else Place(Code, "", Code, false)
  }

  /** What begins at `j`. */
  function Opened(s: string, j: nat, from: State, text: string, skip: bool): Place
    requires j < |s|
  {
    if s[j] == '"' then Place(String, text, from, skip)
    else if s[j] == '\'' then Place(Character, text, from, skip)
    else if s[j] == '#' then Place(Preprocessor, text, from, skip)
    else if j + 1 < |s| && s[j + 1] == '/' then Place(OneLineComment, "//", Code, skip)
    else Place(MultiLineComment, "/*", from, skip)
  }

  // ---------------------------------------------------------------- character by character

  predicate Reading(p: Place) { !p.state.CommentBegin? && !p.state.MultiLineCommentEnd? }

  /** One character joins the pending text. */
  function Stepped(p: Place, ch: char): Place {
    match p.state
    case String => p.(text := p.text + [ch], skip := ch == '\\' && !p.skip)
    case Character => p.(text := p.text + [ch], skip := ch == '\\' && !p.skip)
    case Preprocessor => p.(text := p.text + [ch], skip := ch == '\\' || (ch == '/' && p.skip))
    case MultiLineComment => p.(text := p.text + [ch], saved := if ch == '\n' then Code else p.saved)
    case _ => p.(text := p.text + [ch])
  }

  lemma {:induction false} EscapedNext(ch: char, rest: string, k: nat, skip: bool)
    requires k <= |rest|
    ensures Escaped([ch] + rest, k + 1, skip) == Escaped(rest, k, ch == '\\' && !skip)
  {
    if k > 0 { EscapedNext(ch, rest, k - 1, skip); }
  }

  lemma {:induction false} ContinuedNext(ch: char, rest: string, k: nat, skip: bool)
    requires k <= |rest|
    ensures Continued([ch] + rest, k + 1, skip) == Continued(rest, k, ch == '\\' || (ch == '/' && skip))
  {
    if k > 0 { ContinuedNext(ch, rest, k - 1, skip); }
  }

  lemma EndsNext(p: Place, ch: char, rest: string, k: nat)
    requires Reading(p) && k < |rest|
    ensures Ends(p, [ch] + rest, k + 1) == Ends(Stepped(p, ch), rest, k)
  {
    EscapedNext(ch, rest, k, p.skip);
    ContinuedNext(ch, rest, k, p.skip);
  }

  lemma FirstEndNext(p: Place, ch: char, rest: string)
    requires Reading(p) && !Ends(p, [ch] + rest, 0)
    ensures FirstEnd(p, [ch] + rest, 0) == 1 + FirstEnd(Stepped(p, ch), rest, 0)
  {
    var s, z := [ch] + rest, Stepped(p, ch);
    var j, k := FirstEnd(p, s, 0), FirstEnd(z, rest, 0);
    if j < |s| { EndsNext(p, ch, rest, j - 1); }
    if k < |rest| { EndsNext(p, ch, rest, k); }
  }

  lemma TextNext(text: string, ch: char, rest: string, k: nat)
    requires k <= |rest|
    ensures text + ([ch] + rest)[..k + 1] == text + [ch] + rest[..k] && ([ch] + rest)[k + 1..] == rest[k..]
  {
  }

  lemma GivenNext(p: Place, ch: char, rest: string, k: nat)
    requires Reading(p) && k < |rest|
    ensures Given(p, [ch] + rest, k + 1) == Given(Stepped(p, ch), rest, k)
  {
    TextNext(p.text, ch, rest, k);
    TextNext(p.text, ch, rest, k + 1);
    if k + 1 < |rest| { TextNext(p.text, ch, rest, k + 2); }
  }

  lemma NextNext(p: Place, ch: char, rest: string, k: nat)
    requires Reading(p) && k < |rest|
    ensures Next(p, [ch] + rest, k + 1) == Next(Stepped(p, ch), rest, k)
    ensures Length(p, [ch] + rest, k + 1) == Length(Stepped(p, ch), rest, k)
  {
    TextNext(p.text, ch, rest, k + 1);
    ContinuedNext(ch, rest, k, p.skip);
    NewLineNext(ch, rest, k);
  }

  lemma NewLineNext(ch: char, rest: string, k: nat)
    requires k <= |rest|
    ensures '\n' in ([ch] + rest)[..k + 1] <==> ch == '\n' || '\n' in rest[..k]
  {
    assert ([ch] + rest)[..k + 1] == [ch] + rest[..k];
  }

  /** A character that ends nothing joins the pending text. */
  lemma Stays(p: Place, ch: char, rest: string, s: string)
    requires Reading(p) && s == [ch] + rest && !Ends(p, s, 0)
    ensures Pieces(p, s) == Pieces(Stepped(p, ch), rest)
  {
    FirstEndNext(p, ch, rest);
    var q := Stepped(p, ch);
    var k := FirstEnd(q, rest, 0);
    if k < |rest| {
      GivenNext(p, ch, rest, k);
      NextNext(p, ch, rest, k);
      DropNext(ch, rest, s, k + Length(q, rest, k));
      var given, next, more := Given(q, rest, k), Next(q, rest, k), rest[k + Length(q, rest, k)..];
      EndsAt(p, s, k + 1, given, next, more);
      EndsAt(q, rest, k, given, next, more);
    }
  }

  lemma DropNext(ch: char, rest: string, s: string, i: nat)
    requires s == [ch] + rest && i <= |rest|
    ensures s[i + 1..] == rest[i..]
  {
  }

  lemma EndsAt(p: Place, s: string, j: nat, given: seq<Piece>, next: Place, more: string)
    requires Reading(p) && j == FirstEnd(p, s, 0) < |s|
    requires given == Given(p, s, j) && next == Next(p, s, j) && more == s[j + Length(p, s, j)..]
    ensures Pieces(p, s) == given + Pieces(next, more)
  {
  }

  /** A character that ends the pending text. */
  lemma Turns(p: Place, s: string, rest: string)
    requires Reading(p) && Ends(p, s, 0) && rest == s[Length(p, s, 0)..]
    ensures Pieces(p, s) == Given(p, s, 0) + Pieces(Next(p, s, 0), rest)
  {
    assert FirstEnd(p, s, 0) == 0;
  }

  /** In code, directives and line comments nothing is remembered to return to. */
  lemma SavedIrrelevant(p: Place, saved: State, s: string)
    requires p.state.Code? || p.state.Preprocessor? || p.state.OneLineComment?
    ensures Pieces(p, s) == Pieces(p.(saved := saved), s)
  {
    SameEnds(p, p.(saved := saved), s, 0);
  }

  lemma {:induction false} SameEnds(p: Place, q: Place, s: string, i: nat)
    requires i <= |s| && p.state == q.state && p.skip == q.skip
    ensures FirstEnd(p, s, i) == FirstEnd(q, s, i)
    decreases |s| - i
  {
    if i < |s| && !Ends(p, s, i) { SameEnds(p, q, s, i + 1); }
  }

  lemma NothingLeft(p: Place)
    ensures Pieces(p, "") == []
  {
    if p.state.CommentBegin? {
      assert "/" + "" == "/";
      var q := p.(state := p.saved);
      if q.state.Code? || q.state.Preprocessor? { assert FirstEnd(q, "/", 0) == 1; }
    }
  }

  // ---------------------------------------------------------------- one character in each state

  lemma NoComment(p: Place, s: string)
    requires p.state.CommentBegin? && (p.saved.Code? || p.saved.Preprocessor?) && s != "" && s[0] != '/' && s[0] != '*'
    ensures Pieces(p, s) == Pieces(p.(state := p.saved, text := p.text + "/"), s)
  {
    Stays(p.(state := p.saved), '/', s, "/" + s);
  }

  lemma CommentOpens(p: Place, ch: char, rest: string)
    requires p.state.CommentBegin? && (p.saved.Code? || p.saved.Preprocessor?) && (ch == '/' || ch == '*')
    ensures Pieces(p, [ch] + rest) == [Piece(p.saved, p.text)]
      + Pieces(if ch == '/'
               then Place(OneLineComment, "//", Code, p.skip)
               else Place(MultiLineComment, "/*", p.saved, p.skip), rest)
  {
    var s := "/" + ([ch] + rest);
    assert s[2..] == rest && p.text + s[..0] == p.text;
    Turns(p.(state := p.saved), s, rest);
  }

  lemma LineEnds(p: Place, rest: string)
    requires p.state.OneLineComment?
    ensures Pieces(p, ['\n'] + rest) == [Piece(OneLineComment, p.text)]
      + Pieces(Place(Code, "\n", p.saved, p.skip), rest)
  {
    var s := ['\n'] + rest;
    assert s[1..] == rest && p.text + s[..0] == p.text;
    Turns(p, s, rest);
    SavedIrrelevant(Place(Code, "\n", p.saved, p.skip), Code, rest);
  }

  lemma CommentCloses(p: Place, rest: string)
    requires p.state.MultiLineCommentEnd? && (p.saved.Code? || p.saved.Preprocessor?)
    ensures Pieces(p, ['/'] + rest) == [Piece(MultiLineCommentEnd, p.text + "/")]
      + Pieces(Place(p.saved, "", p.saved, p.skip), rest)
  {
    assert (['/'] + rest)[1..] == rest;
  }

  /** A double quote begins a string, a single one a character, and a hash a directive. */
  lemma CodeOpens(p: Place, ch: char, rest: string)
    requires p.state.Code? && (ch == '"' || ch == '\'' || ch == '#')
    ensures Pieces(p, [ch] + rest) == [Piece(Code, p.text)]
      + Pieces(Place(if ch == '"' then String else if ch == '\'' then Character else Preprocessor,
                     [ch], Code, p.skip), rest)
  {
    var s := [ch] + rest;
    assert s[1..] == rest && p.text + s[..0] == p.text;
    Turns(p, s, rest);
  }

  lemma DirectiveStep(p: Place, ch: char, rest: string)
    requires p.state.Preprocessor? && ch != '/'
    ensures Pieces(p, [ch] + rest) ==
      if ch == '"' then Pieces(Place(String, p.text + [ch], Preprocessor, p.skip), rest)
      else if ch == '\'' then Pieces(Place(Character, p.text + [ch], Preprocessor, p.skip), rest)
      else if ch == '\n' && !p.skip then
        [Piece(Preprocessor, p.text + [ch])] + Pieces(Place(Code, "", Code, false), rest)
      else Pieces(p.(text := p.text + [ch], skip := ch == '\\'), rest)
  {
    var s := [ch] + rest;
    assert s[1..] == rest && s[..1] == [ch];
    if Ends(p, s, 0) {
      Turns(p, s, rest);
      assert [] + Pieces(Next(p, s, 0), rest) == Pieces(Next(p, s, 0), rest);
    } else {
      Stays(p, ch, rest, s);
    }
  }

  lemma CommentStep(p: Place, ch: char, rest: string)
    requires p.state.MultiLineComment? && (p.saved.Code? || p.saved.Preprocessor?)
    ensures Pieces(p, [ch] + rest) ==
      Pieces(p.(state := if ch == '*' then MultiLineCommentEnd else p.state, text := p.text + [ch],
                saved := if ch == '\n' then Code else p.saved), rest)
  {
    var s := [ch] + rest;
    if Ends(p, s, 0) {
      StarSlash(p, s, rest, rest[1..]);
    } else {
      Stays(p, ch, rest, s);
    }
  }

  lemma StarSlash(p: Place, s: string, rest: string, more: string)
    requires p.state.MultiLineComment? && s == ['*'] + rest && rest == ['/'] + more
    ensures Pieces(p, s) == Pieces(p.(state := MultiLineCommentEnd, text := p.text + "*"), rest)
  {
    assert s[2..] == more && rest[1..] == more && s[..2] == "*/" && s[..0] == "";
    assert p.text + "*/" == p.text + "*" + "/";
    Turns(p, s, more);
  }

  lemma LiteralStep(p: Place, ch: char, quote: char, rest: string)
    requires (p.state.String? && quote == '"') || (p.state.Character? && quote == '\'')
    requires p.saved.Code? || p.saved.Preprocessor?
    ensures Pieces(p, [ch] + rest) ==
      if ch == quote && !p.skip then
        if p.saved.Code? then [Piece(p.state, p.text + [ch])] + Pieces(Place(Code, "", Code, false), rest)
        else Pieces(Place(Preprocessor, p.text + [ch], Preprocessor, false), rest)
      else Pieces(p.(text := p.text + [ch], skip := ch == '\\' && !p.skip), rest)
  {
    var s := [ch] + rest;
    assert s[1..] == rest && s[..1] == [ch];
    if Ends(p, s, 0) {
      Turns(p, s, rest);
      assert [] + Pieces(Next(p, s, 0), rest) == Pieces(Next(p, s, 0), rest);
    } else {
      Stays(p, ch, rest, s);
    }
  }
}
