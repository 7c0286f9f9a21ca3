/**
 * The `ObjcMethod.arguments` setter: the argument text of a method line is split on single
 * spaces; a token holding `(` but no `)` absorbs the tokens after it until the text holds a
 * `)`; each resulting segment `external:(type)local` is cut on `:` and then on `)`.
 */
module Tokenizer {
  import opened Wrappers
  import opened PyStrings
  import opened ObjcTypes

  /** Puts `xs` in front of a successful list; a failure passes through unchanged. */
  function Prepend<T>(xs: seq<T>, r: Result<seq<T>>): Result<seq<T>>
  {
    match r
    case Ok(ys) => Ok(xs + ys)
    case Err(e) => Err(e)
  }

  /** Prepending twice is prepending the concatenation; prepending nothing changes nothing. */
  lemma PrependTwice<T>(xs: seq<T>, ys: seq<T>, r: Result<seq<T>>)
    ensures Prepend(xs, Prepend(ys, r)) == Prepend(xs + ys, r)
    ensures Prepend([], r) == r
  {
    if r.Ok? {
      assert xs + (ys + r.value) == (xs + ys) + r.value;
      assert [] + r.value == r.value;
    }
  }

  /**
   * The inner `while` of the setter: `acc` grows by a space and the next token until it
   * holds a `)`. Running out of tokens is the IndexError of `args[index + count]`.
   */
  function Absorb(acc: string, rest: seq<string>): (r: Result<string>)
    ensures r.Ok? ==> ')' in r.value && acc <= r.value
    ensures r.Err? ==> r.error == IndexOutOfRange
    decreases |rest|
  {
    if ')' in acc then Ok(acc)
    else if rest == [] then Err(IndexOutOfRange)
    else Absorb(acc + " " + rest[0], rest[1..])
  }

  /** The tokens that hold a `(`, in order: each starts one argument. */
  function Openers(tokens: seq<string>): seq<string>
  {
    if tokens == [] then []
    else (if '(' in tokens[0] then [tokens[0]] else []) + Openers(tokens[1..])
  }

  /**
   * `fixed_args` of the setter: one segment per token holding `(`, in source order, each
   * extending that token through the first token (itself included) that holds a `)`.
   */
  function Segments(tokens: seq<string>): (r: Result<seq<string>>)
    ensures r.Ok? ==> |r.value| == |Openers(tokens)|
    ensures r.Err? ==> r.error == IndexOutOfRange
  {
    if tokens == [] then Ok([])
    else
      var t := tokens[0];
      if '(' in t && ')' in t then Prepend([t], Segments(tokens[1..]))
      else if '(' in t then
        match Absorb(t, tokens[1..])
        case Err(e) => Err(e)
        case Ok(s) => Prepend([s], Segments(tokens[1..]))
      else Segments(tokens[1..])
  }

  /**
   * One segment `external:(type)local` as the setter cuts it: exactly one `:`, then exactly
   * one `)` after it, else the two-name unpacking raises ValueError; the first character of
   * the type part (its `(`) is dropped.
   */
  function ParseSegment(segment: string): (r: Result<ObjcArgument>)
    ensures Count(segment, ':') != 1 ==> r == Err(UnpackMismatch)
    ensures (SplitCount(segment, ':');
             r.Ok? <==> Count(segment, ':') == 1 && Count(Split(segment, ':')[1], ')') == 1)
    ensures r.Err? ==> r.error == UnpackMismatch
    ensures r.Ok? ==> ':' !in r.value.externalName && ':' !in r.value.component
                      && ')' !in r.value.component
  {
    SplitCount(segment, ':');
    var parts := Split(segment, ':');
    if |parts| != 2 then Err(UnpackMismatch)
    else
      var pair := Split(parts[1], ')');
      SplitCount(parts[1], ')');
      if |pair| != 2 then Err(UnpackMismatch)
      else
        assert parts[0] in parts && pair[1] in pair && parts[1] in parts;
        Ok(MakeArgument(DropFirst(pair[0]), pair[1], parts[0]))
  }

  /** The second loop of the setter: every segment becomes an argument, in order. */
  function ParseSegments(segments: seq<string>): (r: Result<seq<ObjcArgument>>)
    ensures r.Ok? ==> |r.value| == |segments|
  {
    if segments == [] then Ok([])
    else
      match ParseSegment(segments[0])
      case Err(e) => Err(e)
      case Ok(a) => Prepend([a], ParseSegments(segments[1..]))
  }

  /** What the setter leaves in `_arguments` for an argument text, or the exception it raises. */
  function ArgumentsOf(arguments: string): (r: Result<seq<ObjcArgument>>)
    ensures arguments == "" ==> r == Ok([])
    ensures r.Ok? ==> |r.value| == |Openers(Split(arguments, ' '))|
  {
    if |arguments| == 0 then Ok([])
    else
      match Segments(Split(arguments, ' '))
      case Err(e) => Err(e)
      case Ok(segments) => ParseSegments(segments)
  }

  /**
   * The inner `while` of the setter, from the opener at `index`. The source's explicit
   * "no closing ')'" check sits after the step that already indexed past the end, so it
   * can never fire.
   */
  method AbsorbTokens(args: seq<string>, index: nat) returns (r: Result<string>)
    requires index < |args|
    ensures r == Absorb(args[index], args[index + 1..])
  {
    var arg := args[index];
    var count := 1;
    while ')' !in arg
      invariant 1 <= count && index + count <= |args|
      invariant Absorb(arg, args[index + count..]) == Absorb(args[index], args[index + 1..])
      decreases |args| - (index + count)
    {
      if index + count >= |args| {
        return Err(IndexOutOfRange);
      }
      assert args[index + count..][1..] == args[index + count + 1..];
      arg := arg + " " + args[index + count];
      count := count + 1;
      if |args| < index + count {
        assert false;
      }
    }
    return Ok(arg);
  }

  /** The first loop of the setter: the tokens recombined into `fixed_args`. */
  method CombineTokens(args: seq<string>) returns (r: Result<seq<string>>)
    ensures r == Segments(args)
  {
    var fixedArgs: seq<string> := [];
    var index := 0;
    assert args[0..] == args;
    PrependTwice([], [], Segments(args));
    while index < |args|
      invariant 0 <= index <= |args|
      invariant Segments(args) == Prepend(fixedArgs, Segments(args[index..]))
    {
      var arg := args[index];
      assert args[index..][1..] == args[index + 1..];
      if '(' in arg && ')' in arg {
        PrependTwice(fixedArgs, [arg], Segments(args[index + 1..]));
        fixedArgs := fixedArgs + [arg];
      } else if '(' in arg && ')' !in arg {
        var absorbed := AbsorbTokens(args, index);
        if absorbed.Err? {
          return Err(absorbed.error);
        }
        PrependTwice(fixedArgs, [absorbed.value], Segments(args[index + 1..]));
        fixedArgs := fixedArgs + [absorbed.value];
      }
      index := index + 1;
    }
    assert args[|args|..] == [];
    assert fixedArgs + [] == fixedArgs;
    return Ok(fixedArgs);
  }

  /** The second loop of the setter: each segment parsed, appended in order. */
  method ParseAll(fixedArgs: seq<string>) returns (r: Result<seq<ObjcArgument>>)
    ensures r == ParseSegments(fixedArgs)
  {
    var parsed: seq<ObjcArgument> := [];
    var k := 0;
    assert fixedArgs[0..] == fixedArgs;
    PrependTwice([], [], ParseSegments(fixedArgs));
    while k < |fixedArgs|
      invariant 0 <= k <= |fixedArgs|
      invariant ParseSegments(fixedArgs) == Prepend(parsed, ParseSegments(fixedArgs[k..]))
    {
      assert fixedArgs[k..][1..] == fixedArgs[k + 1..];
      var argument := ParseSegment(fixedArgs[k]);
      if argument.Err? {
        return Err(argument.error);
      }
      PrependTwice(parsed, [argument.value], ParseSegments(fixedArgs[k + 1..]));
      parsed := parsed + [argument.value];
      k := k + 1;
    }
    assert fixedArgs[|fixedArgs|..] == [];
    assert parsed + [] == parsed;
    return Ok(parsed);
  }

  /** The setter itself: what it stores in `_arguments`, or the exception it raises. */
  method ParseArguments(arguments: string) returns (r: Result<seq<ObjcArgument>>)
    ensures r == ArgumentsOf(arguments)
  {
    if |arguments| == 0 {
      return Ok([]);
    }
    var segments := CombineTokens(Split(arguments, ' '));
    if segments.Err? {
      return Err(segments.error);
    }
    r := ParseAll(segments.value);
  }

  /** A token that opens a `(` and holds no `)` at or after it. */
  predicate Unclosed(tokens: seq<string>, i: int)
  {
    0 <= i < |tokens| && '(' in tokens[i] && forall j :: i <= j < |tokens| ==> ')' !in tokens[j]
  }

  /** Absorbing fails exactly when neither the text so far nor any later token holds a `)`. */
  lemma {:induction false} AbsorbFails(acc: string, rest: seq<string>)
    ensures Absorb(acc, rest).Err? <==> ')' !in acc && forall j :: 0 <= j < |rest| ==> ')' !in rest[j]
    decreases |rest|
  {
    if ')' !in acc && rest != [] {
      AbsorbFails(acc + " " + rest[0], rest[1..]);
      assert ')' in acc + " " + rest[0] <==> ')' in rest[0];
      forall j | 0 <= j < |rest[1..]|
        ensures rest[1..][j] == rest[j + 1]
      {
      }
    }
  }

  /** The setter raises exactly when some token opens a `(` that no later token closes. */
  lemma {:induction false} SegmentsFailIffUnclosed(tokens: seq<string>)
    ensures Segments(tokens).Err? <==> exists i :: Unclosed(tokens, i)
  {
    if tokens != [] {
      var t, rest := tokens[0], tokens[1..];
      SegmentsFailIffUnclosed(rest);
      forall i | 0 <= i
        ensures Unclosed(rest, i) <==> Unclosed(tokens, i + 1)
      {
        if 0 <= i < |rest| {
          assert rest[i] == tokens[i + 1];
          if Unclosed(rest, i) {
            forall j | i + 1 <= j < |tokens|
              ensures ')' !in tokens[j]
            {
              assert tokens[j] == rest[j - 1];
            }
          }
          if Unclosed(tokens, i + 1) {
            forall j | i <= j < |rest|
              ensures ')' !in rest[j]
            {
              assert rest[j] == tokens[j + 1];
            }
          }
        }
      }
      if exists i :: Unclosed(tokens, i) {
        var i :| Unclosed(tokens, i);
        if i > 0 {
          assert Unclosed(rest, i - 1);
        }
      }
      if '(' in t && ')' !in t {
        AbsorbFails(t, rest);
        if Absorb(t, rest).Err? {
          assert Unclosed(tokens, 0);
        }
      }
    }
  }

  /** Tokens without `(` contribute nothing, wherever they stand. */
  lemma {:induction false} SkipPlain(plain: seq<string>, rest: seq<string>)
    requires forall k :: 0 <= k < |plain| ==> '(' !in plain[k]
    ensures Segments(plain + rest) == Segments(rest)
  {
    if plain != [] {
      assert (plain + rest)[0] == plain[0];
      assert (plain + rest)[1..] == plain[1..] + rest;
      assert forall k :: 0 <= k < |plain[1..]| ==> plain[1..][k] == plain[k + 1];
      SkipPlain(plain[1..], rest);
      assert '(' !in plain[0];
    } else {
      assert plain + rest == rest;
    }
  }

  /** In a successful parse, the k-th segment extends the k-th opening token. */
  lemma {:induction false} SegmentsExtendOpeners(tokens: seq<string>)
    requires Segments(tokens).Ok?
    ensures forall k :: 0 <= k < |Segments(tokens).value| ==>
      Openers(tokens)[k] <= Segments(tokens).value[k] && ')' in Segments(tokens).value[k]
  {
    if tokens != [] {
      var t := tokens[0];
      SegmentsExtendOpeners(tokens[1..]);
    }
  }

  /**
   * Absorbing runs through the first token that closes: the opener, the tokens before the
   * closing one and the closing one itself, joined by single spaces.
   */
  lemma {:induction false} AbsorbThrough(acc: string, mid: seq<string>, last: string, rest: seq<string>)
    requires ')' !in acc && ')' in last
    requires forall k :: 0 <= k < |mid| ==> ')' !in mid[k]
    ensures Absorb(acc, mid + [last] + rest) == Ok(Join(" ", [acc] + mid + [last]))
    decreases |mid|
  {
    if mid == [] {
      assert (mid + [last] + rest)[1..] == rest;
      assert ')' in acc + " " + last;
      assert [acc] + mid + [last] == [acc, last];
    } else {
      var acc' := acc + " " + mid[0];
      assert (mid + [last] + rest)[0] == mid[0];
      assert (mid + [last] + rest)[1..] == mid[1..] + [last] + rest;
      assert ')' !in acc' by {
        assert ')' !in " ";
        assert ')' !in mid[0];
      }
      assert forall k :: 0 <= k < |mid[1..]| ==> mid[1..][k] == mid[k + 1];
      AbsorbThrough(acc', mid[1..], last, rest);
      var tail := mid[1..] + [last];
      var whole := [acc] + mid + [last];
      assert [acc'] + mid[1..] + [last] == [acc'] + tail;
      assert whole[0] == acc && whole[1..] == [mid[0]] + tail;
      assert ([acc'] + tail)[0] == acc' && ([acc'] + tail)[1..] == tail;
      assert ([mid[0]] + tail)[0] == mid[0] && ([mid[0]] + tail)[1..] == tail;
      var j := Join(" ", tail);
      assert Join(" ", whole) == acc + " " + Join(" ", [mid[0]] + tail);
      assert Join(" ", [mid[0]] + tail) == mid[0] + " " + j;
      assert Join(" ", [acc'] + tail) == acc' + " " + j;
      assert acc + " " + (mid[0] + " " + j) == acc' + " " + j;
    }
  }

  /** An argument as a header line declares it: `external:(type)local`, no space after `)`. */
  function ArgumentDecl(a: ObjcArgument): string
  {
    a.externalName + ":(" + TypeText(a.classType) + ")" + a.component
  }

  /** The declarations of several arguments. */
  function Decls(args: seq<ObjcArgument>): seq<string>
  {
    seq(|args|, k requires 0 <= k < |args| => ArgumentDecl(args[k]))
  }

  /** The argument text of a method line declaring `args`, separated by single spaces. */
  function ArgumentsDecl(args: seq<ObjcArgument>): string
  {
    Join(" ", Decls(args))
  }

  /**
   * An argument a header line can declare so that the setter reads it back: names free of
   * spaces, `:` and parentheses; a type name free of `:` and parentheses (spaces allowed);
   * and a non-pointer type name that does not itself end in `*`.
   */
  predicate Declarable(a: ObjcArgument)
  {
    var name := a.classType.className;
    ' ' !in a.externalName && ':' !in a.externalName && '(' !in a.externalName && ')' !in a.externalName
    && ' ' !in a.component && ':' !in a.component && '(' !in a.component && ')' !in a.component
    && ':' !in name && '(' !in name && ')' !in name
    && (!a.classType.isPointer ==> !EndsWith(name, "*"))
  }

  /** The type text of a declarable argument holds no `:` and no parenthesis. */
  lemma TypeTextPlain(a: ObjcArgument)
    requires Declarable(a)
    ensures ':' !in TypeText(a.classType) && '(' !in TypeText(a.classType) && ')' !in TypeText(a.classType)
  {
    var name := a.classType.className;
    if a.classType.isPointer {
      assert TypeText(a.classType) == name + "*";
    }
  }

  /**
   * The shape of the space-separated tokens of one declaration: the first opens a `(`;
   * either it also closes it, or no token before the last closes and the last one does;
   * no later token opens.
   */
  predicate DeclShape(t: seq<string>)
  {
    |t| >= 1 && '(' in t[0]
    && (|t| == 1 ==> ')' in t[0])
    && (|t| > 1 ==> ')' !in t[0] && ')' in t[|t| - 1])
    && (forall k :: 1 <= k < |t| ==> '(' !in t[k])
    && (forall k :: 1 <= k < |t| - 1 ==> ')' !in t[k])
  }

  /** The fields of a split hold no character that the split string lacks. */
  lemma SplitFieldsAvoid(s: string, sep: char, c: char)
    requires c !in s
    ensures forall k :: 0 <= k < |Split(s, sep)| ==> c !in Split(s, sep)[k]
  {
    var w := Split(s, sep);
    forall k | 0 <= k < |w|
      ensures c !in w[k]
    {
      assert w[k] in w;
    }
  }

  /**
   * Splitting `x + tt + y` on spaces, where `x` opens, `y` closes and neither has a space,
   * and `tt` has no parenthesis, gives tokens of the declaration shape.
   */
  lemma BracketedTokens(x: string, tt: string, y: string)
    requires ' ' !in x && '(' in x && ')' !in x
    requires ' ' !in y && ')' in y && '(' !in y
    requires '(' !in tt && ')' !in tt
    ensures DeclShape(Split(x + (tt + y), ' '))
  {
    var w := Split(tt, ' ');
    SplitFieldsAvoid(tt, ' ', '(');
    SplitFieldsAvoid(tt, ' ', ')');
    SplitSuffix(tt, y, ' ');
    SplitPrefix(x, tt + y, ' ');
    ShapeOfPieces(x, w, y);
  }

  /**
   * Gluing an opening `x` onto the first of some parenthesis-free words and a closing `y`
   * onto the last gives tokens of the declaration shape.
   */
  lemma ShapeOfPieces(x: string, w: seq<string>, y: string)
    requires '(' in x && ')' !in x && ')' in y && '(' !in y && |w| >= 1
    requires forall k :: 0 <= k < |w| ==> '(' !in w[k] && ')' !in w[k]
    ensures var v := w[..|w| - 1] + [w[|w| - 1] + y];
      DeclShape([x + v[0]] + v[1..])
  {
    var n := |w|;
    var v := w[..n - 1] + [w[n - 1] + y];
    var t := [x + v[0]] + v[1..];
    if n == 1 {
      assert t == [x + (w[0] + y)];
    } else {
      assert |t| == n;
      assert t[0] == x + w[0];
      assert forall k :: 1 <= k < n - 1 ==> t[k] == w[k];
      assert t[n - 1] == w[n - 1] + y;
    }
  }

  /** The tokens of one declaration have the declaration shape. */
  lemma DeclTokens(a: ObjcArgument)
    requires Declarable(a)
    ensures DeclShape(Split(ArgumentDecl(a), ' '))
  {
    var tt := TypeText(a.classType);
    TypeTextPlain(a);
    var x := a.externalName + ":(";
    var y := ")" + a.component;
    assert ArgumentDecl(a) == x + (tt + y);
    assert x[|a.externalName| + 1] == '(';
    assert y[0] == ')';
    BracketedTokens(x, tt, y);
  }

  /** Tokens of the declaration shape, followed by anything, recombine into their join. */
  lemma SegmentsOfShape(t: seq<string>, rest: seq<string>)
    requires DeclShape(t)
    ensures Segments(t + rest) == Prepend([Join(" ", t)], Segments(rest))
  {
    assert (t + rest)[0] == t[0];
    if |t| == 1 {
      assert (t + rest)[1..] == rest;
    } else {
      var mid, last := t[1..|t| - 1], t[|t| - 1];
      assert (t + rest)[1..] == mid + [last] + rest;
      assert forall k :: 0 <= k < |mid| ==> mid[k] == t[k + 1];
      AbsorbThrough(t[0], mid, last, rest);
      assert [t[0]] + mid + [last] == t;
      assert (t + rest)[1..] == t[1..] + rest;
      assert forall k :: 0 <= k < |t[1..]| ==> t[1..][k] == t[k + 1];
      SkipPlain(t[1..], rest);
    }
  }

  /** The tokens of one declaration, followed by anything, recombine into that declaration. */
  lemma SegmentsOfDecl(a: ObjcArgument, rest: seq<string>)
    requires Declarable(a)
    ensures Segments(Split(ArgumentDecl(a), ' ') + rest) == Prepend([ArgumentDecl(a)], Segments(rest))
  {
    DeclTokens(a);
    JoinSplit(ArgumentDecl(a), ' ');
    SegmentsOfShape(Split(ArgumentDecl(a), ' '), rest);
  }

  /** The tokens of a non-empty list of declarations recombine into those declarations. */
  lemma {:induction false} SegmentsOfDecls(args: seq<ObjcArgument>)
    requires args != []
    requires forall k :: 0 <= k < |args| ==> Declarable(args[k])
    ensures Segments(Split(ArgumentsDecl(args), ' ')) == Ok(Decls(args))
  {
    var d, ds := ArgumentDecl(args[0]), Decls(args);
    if |args| == 1 {
      assert ds == [d];
      assert ArgumentsDecl(args) == d;
      SegmentsOfDecl(args[0], []);
      assert Split(d, ' ') + [] == Split(d, ' ');
      assert Segments([]) == Ok([]);
      assert [d] + [] == [d];
    } else {
      var rest := args[1..];
      var tail := ArgumentsDecl(rest);
      DeclsTail(args);
      SegmentsOfDecls(rest);
      assert ArgumentsDecl(args) == d + [' '] + tail by {
        assert ds == [d] + Decls(rest);
      }
      var toks := Split(tail, ' ');
      assert Split(ArgumentsDecl(args), ' ') == Split(d, ' ') + toks by {
        SplitConcat(d, tail, ' ');
      }
      SegmentsOfDecl(args[0], toks);
      assert Prepend([d], Segments(toks)) == Ok(ds);
    }
  }

  /** The declarations after the first are those of the remaining arguments, all declarable. */
  lemma DeclsTail(args: seq<ObjcArgument>)
    requires args != []
    requires forall k :: 0 <= k < |args| ==> Declarable(args[k])
    ensures Decls(args) == [ArgumentDecl(args[0])] + Decls(args[1..])
    ensures forall k :: 0 <= k < |args[1..]| ==> Declarable(args[1..][k])
  {
    var rest := args[1..];
    forall k | 0 <= k < |rest|
      ensures Declarable(rest[k])
    {
      assert rest[k] == args[k + 1];
    }
    assert Decls(args) == [ArgumentDecl(args[0])] + Decls(rest);
  }

  /** A segment `external:(type)local` with plain pieces parses into those pieces. */
  lemma ParsePieces(ext: string, tt: string, comp: string)
    requires ':' !in ext && ':' !in tt && ':' !in comp
    requires ')' !in tt && ')' !in comp
    ensures ParseSegment(ext + ":(" + tt + ")" + comp) == Ok(MakeArgument(tt, comp, ext))
  {
    var open := "(" + tt;
    var inner := open + ")" + comp;
    assert Split(ext + ":(" + tt + ")" + comp, ':') == [ext, inner] by {
      assert ext + ":(" + tt + ")" + comp == ext + [':'] + inner;
      assert ':' !in inner;
      SplitConcat(ext, inner, ':');
      SplitWithout(ext, ':');
      SplitWithout(inner, ':');
    }
    assert Split(inner, ')') == [open, comp] by {
      assert inner == open + [')'] + comp;
      assert ')' !in open;
      SplitConcat(open, comp, ')');
      SplitWithout(open, ')');
      SplitWithout(comp, ')');
    }
    assert DropFirst(open) == tt;
  }

  /** The setter reads one declaration back as the argument it declares. */
  lemma ParseSegmentOfDecl(a: ObjcArgument)
    requires Declarable(a)
    ensures ParseSegment(ArgumentDecl(a)) == Ok(a)
  {
    TypeTextPlain(a);
    ParsePieces(a.externalName, TypeText(a.classType), a.component);
    ArgumentTypeRoundTrip(a);
  }

  /** The setter reads a list of declarations back as the arguments they declare. */
  lemma {:induction false} ParseSegmentsOfDecls(args: seq<ObjcArgument>)
    requires forall k :: 0 <= k < |args| ==> Declarable(args[k])
    ensures ParseSegments(Decls(args)) == Ok(args)
  {
    if args != [] {
      var ds, rest := Decls(args), args[1..];
      DeclsTail(args);
      assert ds[0] == ArgumentDecl(args[0]) && ds[1..] == Decls(rest);
      ParseSegmentOfDecl(args[0]);
      ParseSegmentsOfDecls(rest);
      assert [args[0]] + rest == args;
    }
  }

  /**
   * Round trip: the argument text of a method line declaring `args` is read back by the
   * setter as exactly `args`, in order (none at all for the empty text).
   */
  lemma ArgumentsRoundTrip(args: seq<ObjcArgument>)
    requires forall k :: 0 <= k < |args| ==> Declarable(args[k])
    ensures ArgumentsOf(ArgumentsDecl(args)) == Ok(args)
  {
    if args != [] {
      SegmentsOfDecls(args);
      ParseSegmentsOfDecls(args);
      assert ArgumentsDecl(args)[..] != [] by {
        assert Decls(args)[0] == ArgumentDecl(args[0]);
        assert |ArgumentDecl(args[0])| > 0;
        if |args| > 1 {
          assert ArgumentsDecl(args) == Decls(args)[0] + " " + Join(" ", Decls(args)[1..]);
        }
      }
    } else {
      assert Decls(args) == [];
    }
  }
}
