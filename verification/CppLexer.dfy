/** TCppSaxParser: one pass over the input, which comes in pieces; the worker gets classified fragments. */
module CppLexer {
  import opened CppTokens

  /** A call of the worker: what kind of text, the text, and where it begins. */
  datatype Fragment = Fragment(kind: State, data: string, offset: nat)

  datatype Outcome = Done | ParseError

  /** All text handed to the worker. */
  function Told(sent: seq<Fragment>): string {
    if sent == [] then "" else Told(sent[..|sent| - 1]) + sent[|sent| - 1].data
  }

  /** The fragments without their offsets. */
  function Kinds(sent: seq<Fragment>): seq<Piece> {
    if sent == [] then [] else Kinds(sent[..|sent| - 1]) + [Piece(sent[|sent| - 1].kind, sent[|sent| - 1].data)]
  }

  lemma KindsSnoc(sent: seq<Fragment>, f: Fragment)
    ensures Kinds(sent + [f]) == Kinds(sent) + [Piece(f.kind, f.data)]
  {
    assert (sent + [f])[..|sent|] == sent;
  }

  lemma PiecesJoin(a: seq<Piece>, b: seq<Piece>, c: seq<Piece>)
    ensures a + b + c == a + (b + c) && [] + c == c
  {
  }

  predicate AdjacentAt(sent: seq<Fragment>, i: nat)
    requires i < |sent|
  {
    sent[i].offset == |Told(sent[..i])|
  }

  /** Each fragment begins where those before it end. */
  ghost predicate Adjacent(sent: seq<Fragment>) { forall i :: 0 <= i < |sent| ==> AdjacentAt(sent, i) }

  predicate StartsWith(s: string, c: char, d: char) { |s| >= 2 && s[0] == c && s[1] == d }

  /** No end of a comment from place 2 up to n. */
  ghost predicate Unclosed(s: string, n: int) { forall i :: 2 <= i < n ==> !EndsComment(s, i) }

  /** Text of each kind of comment while it is being read. */
  ghost predicate TextFits(state: State, s: string) {
    match state
    case OneLineComment => StartsWith(s, '/', '/') && '\n' !in s
    case MultiLineComment => StartsWith(s, '/', '*') && Unclosed(s, |s|) && (|s| > 2 ==> s[|s| - 1] != '*')
    case MultiLineCommentEnd => StartsWith(s, '/', '*') && |s| > 2 && Unclosed(s, |s|) && s[|s| - 1] == '*'
    case _ => true
  }

  /** A comment as the worker gets it: a line comment without its line end, or a block comment that
      ends at its first end mark. */
  ghost predicate Classified(f: Fragment) {
    match f.kind
    case OneLineComment => StartsWith(f.data, '/', '/') && '\n' !in f.data
    case MultiLineCommentEnd =>
      var n := |f.data|;
      n >= 4 && StartsWith(f.data, '/', '*') && f.data[n - 2..] == "*/" && Unclosed(f.data, n - 2)
    case CommentBegin => false
    case MultiLineComment => false
    case _ => true
  }

  ghost predicate AllClassified(sent: seq<Fragment>) {
    forall i {:trigger Classified(sent[i])} :: 0 <= i < |sent| ==> Classified(sent[i])
  }

  lemma ClassifiedSnoc(sent: seq<Fragment>, f: Fragment)
    requires AllClassified(sent) && Classified(f)
    ensures AllClassified(sent + [f])
  {
    var z := sent + [f];
    forall i | 0 <= i < |z| ensures Classified(z[i]) { assert i < |sent| ==> Classified(sent[i]); }
  }

  lemma ToldSnoc(sent: seq<Fragment>, f: Fragment)
    ensures Told(sent + [f]) == Told(sent) + f.data
  {
    assert (sent + [f])[..|sent|] == sent;
  }

  lemma AdjacentSnoc(sent: seq<Fragment>, f: Fragment)
    requires Adjacent(sent) && f.offset == |Told(sent)|
    ensures Adjacent(sent + [f])
  {
    var z := sent + [f];
    forall i | 0 <= i < |z| ensures AdjacentAt(z, i) {
      if i < |sent| {
        assert AdjacentAt(sent, i) && z[..i] == sent[..i];
      } else {
        assert z[..i] == sent;
      }
    }
  }

  /** One more character of a block comment does not end it. */
  lemma StillOpen(s: string, ch: char)
    requires TextFits(MultiLineComment, s) || (TextFits(MultiLineCommentEnd, s) && ch != '/')
    ensures TextFits(if ch == '*' then MultiLineCommentEnd else MultiLineComment, s + [ch])
  {
    var z := s + [ch];
    forall i | 2 <= i < |z| ensures !EndsComment(z, i) {
      if i < |s| { assert !EndsComment(s, i); }
    }
  }

  lemma CloseComment(s: string)
    requires TextFits(MultiLineCommentEnd, s)
    ensures forall offset :: Classified(Fragment(MultiLineCommentEnd, s + "/", offset))
  {
    var z, n := s + "/", |s| + 1;
    assert z[n - 2..] == "*/";
    forall i | 2 <= i < n - 2 ensures !EndsComment(z, i) { assert !EndsComment(s, i); }
  }

  lemma SliceNext(data: string, k: nat)
    requires k < |data|
    ensures data[k..] == [data[k]] + data[k + 1..] && data[..k + 1] == data[..k] + [data[k]]
  {
  }

  lemma Joined3(a: string, b: string, c: string)
    ensures a + b + c == a + (b + c)
  {
  }

  /** What the class keeps: nothing is lost, and every fragment is where and what it should be. */
  class TImpl {
    var state: State
    var text: string
    var offset: nat
    var skipNext: bool
    var sent: seq<Fragment>

    ghost predicate Core()
      reads this
    {
      offset == |Told(sent)| && Adjacent(sent) && AllClassified(sent)
    }

    ghost predicate Valid()
      reads this
    {
      Core() && TextFits(state, text)
    }

    /** What was handed on, and what is pending. */
    ghost function Kept(): string
      reads this
    {
      Told(sent) + text
    }

    /** The input consumed so far: with a slash not yet decided. */
    ghost function Consumed(): string
      reads this
    {
      if state == CommentBegin then Kept() + "/" else Kept()
    }

    /** Where the reading stands, with the state to return to. */
    ghost function Here(saved: State): Place
      reads this
    {
      Place(state, text, saved, skipNext)
    }

    /** What is handed on by the time `rest` has been read. */
    ghost function Yield(saved: State, rest: string): seq<Piece>
      reads this
    {
      Kinds(sent) + Pieces(Here(saved), rest)
    }

    constructor ()
      ensures Valid() && Consumed() == "" && state == Code && sent == [] && text == "" && !skipNext
    {
      state, text, offset, skipNext, sent := Code, "", 0, false, [];
    }

    method Add(s: string)
      modifies this`text
      ensures text == old(text) + s && Kept() == old(Kept()) + s
    {
      text := text + s;
    }

    /** Action: hands the pending text to the worker. It is called only in states that have a
        handler, so its error is out of reach. */
    method Action()
      requires Core() && Classified(Fragment(state, text, offset))
      modifies this`text, this`offset, this`sent
      ensures Core() && text == "" && Kept() == old(Kept())
      ensures sent == old(sent) + [Fragment(state, old(text), old(offset))]
      ensures Kinds(sent) == old(Kinds(sent)) + [Piece(state, old(text))]
    {
      var f := Fragment(state, text, offset);
      ToldSnoc(sent, f);
      AdjacentSnoc(sent, f);
      KindsSnoc(sent, f);
      ClassifiedSnoc(sent, f);
      sent := sent + [f];
      offset := offset + |text|;
      text := "";
    }

    /** Action with the beginning of the next text. */
    method ActionWith(s: string)
      requires Core() && Classified(Fragment(state, text, offset))
      modifies this`text, this`offset, this`sent
      ensures Core() && text == s && Kept() == old(Kept()) + s
      ensures Kinds(sent) == old(Kinds(sent)) + [Piece(state, old(text))]
    {
      Action();
      text := text + s;
    }

    /** Writes one piece of input; the state to return to starts as Code in every piece. What is
        handed on is what reading token by token gives. */
    method Write(data: string)
      requires Valid()
      modifies this
      ensures Valid() && Consumed() == old(Consumed()) + data
      ensures Kinds(sent) == old(Yield(Code, data))
    {
      var savedState := Code;
      assert data[0..] == data;
      for k := 0 to |data|
        invariant Valid() && (savedState == Code || savedState == Preprocessor)
        invariant Consumed() == old(Consumed()) + data[..k]
        invariant Yield(savedState, data[k..]) == old(Yield(Code, data))
      {
        SliceNext(data, k);
        savedState := Step(data[k], savedState, data[k + 1..]);
        Joined3(old(Consumed()), data[..k], [data[k]]);
      }
      assert data[..|data|] == data && data[|data|..] == "";
      NothingLeft(Here(savedState));
    }

    /** One character; `savedState` is where comments and literals return to. */
    method Step(ch: char, saved: State, ghost rest: string) returns (savedState: State)
      requires Valid() && (saved == Code || saved == Preprocessor)
      modifies this
      ensures Valid() && (savedState == Code || savedState == Preprocessor)
      ensures Consumed() == old(Consumed()) + [ch]
      ensures Yield(savedState, rest) == old(Yield(saved, [ch] + rest))
    {
      savedState := saved;
      if state == CommentBegin && ch != '/' && ch != '*' {
        NoComment(Here(saved), [ch] + rest);
        Add("/");
        state := savedState;
      } else if state == MultiLineCommentEnd && ch != '/' {
        state := MultiLineComment;
      }
      match state {
        case Code => savedState := StepCode(ch, saved, rest);
        case Preprocessor => savedState := StepPreprocessor(ch, saved, rest);
        case CommentBegin => savedState := StepCommentBegin(ch, saved, rest);
        case OneLineComment => StepLineComment(ch, saved, rest);
        case MultiLineComment => savedState := StepComment(ch, saved, rest);
        case MultiLineCommentEnd => StepCommentEnd(saved, rest);
        case String => StepLiteral(ch, '"', savedState, rest);
        case Character => StepLiteral(ch, '\'', savedState, rest);
      }
    }

    /** After a slash, another slash or a star. */
    method StepCommentBegin(ch: char, saved: State, ghost rest: string) returns (savedState: State)
      requires Core() && state == CommentBegin && (ch == '/' || ch == '*') && (saved == Code || saved == Preprocessor)
      modifies this
      ensures Valid() && (savedState == Code || savedState == Preprocessor) && Consumed() == old(Kept()) + "/" + [ch]
      ensures Yield(savedState, rest) == old(Yield(saved, [ch] + rest))
    {
      CommentOpens(Here(saved), ch, rest);
      ghost var before := Kinds(sent);
      savedState := saved;
      state := savedState;
      if ch == '/' {
        savedState := Code;
        ActionWith("//");
        state := OneLineComment;
      } else {
        ActionWith("/*");
        state := MultiLineComment;
      }
      PiecesJoin(before, [Piece(saved, old(text))], Pieces(Here(savedState), rest));
    }

    method StepLineComment(ch: char, ghost saved: State, ghost rest: string)
      requires Valid() && state == OneLineComment
      modifies this
      ensures Valid() && Consumed() == old(Consumed()) + [ch]
      ensures Yield(saved, rest) == old(Yield(saved, [ch] + rest))
    {
      if ch == '\n' {
        LineEnds(Here(saved), rest);
        PiecesJoin(Kinds(sent), [Piece(OneLineComment, text)], Pieces(Place(Code, "\n", saved, skipNext), rest));
        ActionWith([ch]);
        state := Code;
      } else {
        Stays(Here(saved), ch, rest, [ch] + rest);
        Add([ch]);
      }
    }

    /** The slash that ends a block comment. */
    method StepCommentEnd(savedState: State, ghost rest: string)
      requires Valid() && state == MultiLineCommentEnd && (savedState == Code || savedState == Preprocessor)
      modifies this
      ensures Valid() && Consumed() == old(Consumed()) + "/"
      ensures Yield(savedState, rest) == old(Yield(savedState, ['/'] + rest))
    {
      CommentCloses(Here(savedState), rest);
      PiecesJoin(Kinds(sent), [Piece(state, text + "/")], Pieces(Place(savedState, "", savedState, skipNext), rest));
      CloseComment(text);
      Add("/");
      Action();
      state := savedState;
    }

    method StepCode(ch: char, ghost saved: State, ghost rest: string) returns (savedState: State)
      requires Core() && state == Code
      modifies this
      ensures Valid() && savedState == Code && Consumed() == old(Kept()) + [ch]
      ensures Yield(savedState, rest) == old(Yield(saved, [ch] + rest))
    {
      savedState := Code;
      SavedIrrelevant(Here(saved), Code, [ch] + rest);
      match ch {
        case '/' =>
          state := CommentBegin;
        case '"' => StepOpen(ch, String, rest);
        case '\'' => StepOpen(ch, Character, rest);
        case '#' => StepOpen(ch, Preprocessor, rest);
        case _ =>
          Stays(Here(Code), ch, rest, [ch] + rest);
          Add([ch]);
      }
    }

    /** A quote or a hash in code: what is pending goes on, and the character begins a text of its own. */
    method StepOpen(ch: char, next: State, ghost rest: string)
      requires Core() && state == Code
      requires (ch == '"' && next == String) || (ch == '\'' && next == Character) || (ch == '#' && next == Preprocessor)
      modifies this
      ensures Valid() && state == next && Consumed() == old(Kept()) + [ch]
      ensures Yield(Code, rest) == old(Yield(Code, [ch] + rest))
    {
      CodeOpens(Here(Code), ch, rest);
      PiecesJoin(Kinds(sent), [Piece(Code, text)], Pieces(Place(next, [ch], Code, skipNext), rest));
      ActionWith([ch]);
      state := next;
    }

    method StepPreprocessor(ch: char, ghost saved: State, ghost rest: string) returns (savedState: State)
      requires Core() && state == Preprocessor
      modifies this
      ensures Valid() && (savedState == Code || savedState == Preprocessor) && Consumed() == old(Kept()) + [ch]
      ensures Yield(savedState, rest) == old(Yield(saved, [ch] + rest))
    {
      savedState := Preprocessor;
      SavedIrrelevant(Here(saved), Preprocessor, [ch] + rest);
      if ch == '/' {
        state := CommentBegin;
        return;
      }
      DirectiveStep(Here(Preprocessor), ch, rest);
      Add([ch]);
      match ch {
        case '\'' => state := Character;
        case '"' => state := String;
        case '\n' =>
          if skipNext {
            skipNext := false;
          } else {
            EndDirective(rest);
            savedState := Code;
          }
        case '\\' => skipNext := true;
        case _ => skipNext := false;
      }
    }

    method EndDirective(ghost rest: string)
      requires Core() && state == Preprocessor
      modifies this`state, this`text, this`offset, this`sent
      ensures Core() && state == Code && text == "" && Kept() == old(Kept())
      ensures Kinds(sent) + Pieces(Place(Code, "", Code, false), rest)
           == old(Kinds(sent)) + ([Piece(Preprocessor, old(text))] + Pieces(Place(Code, "", Code, false), rest))
    {
      PiecesJoin(Kinds(sent), [Piece(state, text)], Pieces(Place(Code, "", Code, false), rest));
      Action();
      state := Code;
    }

    /** Inside a block comment; a slash right after a star is dealt with elsewhere. */
    method StepComment(ch: char, saved: State, ghost rest: string) returns (savedState: State)
      requires Core() && state == MultiLineComment && (saved == Code || saved == Preprocessor)
      requires TextFits(MultiLineComment, text) || (TextFits(MultiLineCommentEnd, text) && ch != '/')
      modifies this`state, this`text
      ensures Valid() && (savedState == Code || savedState == Preprocessor) && Consumed() == old(Kept()) + [ch]
      ensures Yield(savedState, rest) == old(Yield(saved, [ch] + rest))
    {
      savedState := saved;
      CommentStep(Here(saved), ch, rest);
      StillOpen(text, ch);
      Add([ch]);
      match ch {
        case '*' => state := MultiLineCommentEnd;
        case '\n' => savedState := Code;
        case _ =>
      }
    }

    /** The end of a literal; one inside a preprocessor line is not handed on by itself. */
    method CloseLiteral(savedState: State)
      requires Core() && (state == String || state == Character) && (savedState == Code || savedState == Preprocessor)
      modifies this`text, this`offset, this`sent, this`state
      ensures Valid() && Consumed() == old(Kept()) && state == savedState
      ensures text == if savedState == Code then "" else old(text)
      ensures Kinds(sent) == old(Kinds(sent)) + if savedState == Code then [Piece(old(state), old(text))] else []
    {
      if savedState == Code {
        Action();
      }
      state := savedState;
    }

    /** Inside a string or character literal. */
    method StepLiteral(ch: char, quote: char, savedState: State, ghost rest: string)
      requires Core() && (state == String || state == Character) && (savedState == Code || savedState == Preprocessor)
      requires quote == if state == String then '"' else '\''
      modifies this
      ensures Valid() && Consumed() == old(Kept()) + [ch]
      ensures Yield(savedState, rest) == old(Yield(savedState, [ch] + rest))
    {
      LiteralStep(Here(savedState), ch, quote, rest);
      Add([ch]);
      if ch == quote {
        if skipNext {
          skipNext := false;
        } else {
          ghost var own := if savedState == Code then [Piece(state, text)] else [];
          PiecesJoin(Kinds(sent), own,
            Pieces(Place(savedState, if savedState == Code then "" else text, savedState, false), rest));
          CloseLiteral(savedState);
        }
      } else if ch == '\\' {
        skipNext := !skipNext;
      } else {
        skipNext := false;
      }
    }

    /** Finish: hands on what is pending, unless it is an unfinished comment or literal. */
    method Finish() returns (r: Outcome)
      requires Valid()
      modifies this`text, this`offset, this`sent
      ensures r == ParseError <==>
        old(text) != "" && !(state == Code || state == Preprocessor || state == OneLineComment)
      ensures r == Done ==> Adjacent(sent) && AllClassified(sent)
      ensures r == Done && state != CommentBegin ==> Told(sent) == old(Consumed())
      ensures r == Done && state == CommentBegin ==> Told(sent) + "/" == old(Consumed())
      ensures r == Done ==> Kinds(sent) == old(Kinds(sent)) + if old(text) == "" then [] else [Piece(state, old(text))]
    {
      if text != "" {
        if state == Code || state == Preprocessor || state == OneLineComment {
          Action();
        } else {
          return ParseError;
        }
      }
      r := Done;
    }
  }

  /** The whole input at once: the pieces are those of reading token by token. */
  method Tokenize(data: string) returns (sent: seq<Fragment>, rest: string)
    ensures Kinds(sent) == Pieces(Place(Code, "", Code, false), data)
    ensures Told(sent) + rest == data && Adjacent(sent)
  {
    var p := new TImpl();
    p.Write(data);
    PiecesJoin([], [], Pieces(Place(Code, "", Code, false), data));
    sent := p.sent;
    rest := if p.state == CommentBegin then p.text + "/" else p.text;
    assert Told(sent) + (p.text + "/") == Told(sent) + p.text + "/";
  }

  /** Writes the input piece by piece. */
  method WriteAll(p: TImpl, pieces: seq<string>)
    requires p.Valid()
    modifies p
    ensures p.Valid() && p.Consumed() == old(p.Consumed()) + Joined(pieces)
  {
    for k := 0 to |pieces|
      invariant p.Valid() && p.Consumed() == old(p.Consumed()) + Joined(pieces[..k])
    {
      assert pieces[..k + 1][..k] == pieces[..k];
      p.Write(pieces[k]);
    }
    assert pieces[..|pieces|] == pieces;
  }

  function Joined(pieces: seq<string>): string {
    if pieces == [] then "" else Joined(pieces[..|pieces| - 1]) + pieces[|pieces| - 1]
  }

  /** A fragment's text is the part of the input that begins at its offset. */
  lemma {:induction false} FragmentsAreSlices(sent: seq<Fragment>, k: nat)
    requires Adjacent(sent) && k < |sent|
    ensures sent[k].offset + |sent[k].data| <= |Told(sent)|
    ensures Told(sent)[sent[k].offset..sent[k].offset + |sent[k].data|] == sent[k].data
  {
    var m := |sent| - 1;
    var init, from, to := sent[..m], sent[k].offset, sent[k].offset + |sent[k].data|;
    assert Told(sent) == Told(init) + sent[m].data;
    if k < m {
      forall i | 0 <= i < m ensures AdjacentAt(init, i) { assert AdjacentAt(sent, i) && init[..i] == sent[..i]; }
      FragmentsAreSlices(init, k);
      assert Told(sent)[from..to] == Told(init)[from..to];
    } else {
      assert AdjacentAt(sent, k);
      assert from == |Told(init)| && to == |Told(sent)|;
    }
  }
}
