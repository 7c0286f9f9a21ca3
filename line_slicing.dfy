/**
 * The `get_*` helpers of ObjcHeader: index arithmetic on one header line, for both versions.
 * A missing `)` (or, for a property type, a missing space) is the ValueError of `str.index`
 * or `str.rindex`; hooker.py's property type can also index past the end of a word list.
 */
module LineSlicing {
  import opened Wrappers
  import opened PyStrings
  import opened ObjcTypes

  /** The slice end `str.index(':')` gives when there is a `:`, and `-1` otherwise. */
  function ColonOrLast(s: string): int
  {
    if ':' in s then Find(s, ':') else -1
  }

  /**
   * get_method_name of ios-hooker.py: in the text after the first `)`, everything before
   * its first `:`, or all but its last character.
   */
  function IosMethodName(line: string): (r: Result<string>)
    ensures r.Err? <==> ')' !in line
  {
    if ')' !in line then Err(SubstringNotFound)
    else
      var rest := line[Find(line, ')') + 1..];
      Ok(Slice(rest, 0, ColonOrLast(rest)))
  }

  /**
   * get_method_name of hooker.py: the whole line sliced from after the first `)` to the
   * line's first `:`, or to its last character.
   */
  function HookerMethodName(line: string): (r: Result<string>)
    ensures r.Err? <==> ')' !in line
  {
    if ')' !in line then Err(SubstringNotFound)
    else Ok(Slice(line, Find(line, ')') + 1, ColonOrLast(line)))
  }

  /** get_method_name of a version; a line without `)` is the ValueError of `str.index`. */
  function MethodName(v: Variant, line: string): (r: Result<string>)
    ensures r.Err? <==> ')' !in line
    ensures r.Err? ==> r.error == SubstringNotFound
  {
    match v
    case IosHooker => IosMethodName(line)
    case Hooker => HookerMethodName(line)
  }

  /**
   * get_return_type of ios-hooker.py: `ctype = line[2:p + 1]` for the first `)` at `p`;
   * the name is `ctype[:-1]`, keeping any `*`, and a pointer iff `ctype` has a `*`.
   */
  function IosReturnType(line: string): (r: Result<ObjcType>)
    ensures r.Err? <==> ')' !in line
  {
    if ')' !in line then Err(SubstringNotFound)
    else
      var ctype := Slice(line, 2, Find(line, ')') + 1);
      Ok(ObjcType(DropLast(ctype), '*' in ctype))
  }

  /**
   * get_return_type of hooker.py: `ctype = line[:p + 1]`; the name is `ctype[2:-1]` and a
   * pointer iff `ctype` has a `*` anywhere.
   */
  function HookerReturnType(line: string): (r: Result<ObjcType>)
    ensures r.Err? <==> ')' !in line
  {
    if ')' !in line then Err(SubstringNotFound)
    else
      var ctype := Slice(line, 0, Find(line, ')') + 1);
      Ok(ObjcType(Slice(ctype, 2, -1), '*' in ctype))
  }

  /** get_return_type of a version; a line without `)` is the ValueError of `str.index`. */
  function ReturnTypeOf(v: Variant, line: string): (r: Result<ObjcType>)
    ensures r.Err? <==> ')' !in line
    ensures r.Err? ==> r.error == SubstringNotFound
  {
    match v
    case IosHooker => IosReturnType(line)
    case Hooker => HookerReturnType(line)
  }

  /** get_arguments: from the first `:` to just before the last character, or `""` with no `:`. */
  function ArgumentsText(line: string): (r: string)
    ensures ':' !in line ==> r == ""
    ensures ':' in line && Find(line, ':') < |line| - 1 ==>
      |r| >= 1 && r[0] == ':' && line == line[..Find(line, ':')] + r + [line[|line| - 1]]
    ensures ':' in line && Find(line, ':') == |line| - 1 ==> r == ""
  {
    if ':' in line then
      var c := Find(line, ':');
      var r := Slice(line, c, -1);
      assert c < |line| - 1 ==> r == line[c..|line| - 1];
      r
    else ""
  }

  /** get_property_name: the last space-separated word, without its last character. */
  function PropertyName(line: string): (r: string)
    ensures ' ' !in r
  {
    var words := Split(line, ' ');
    var last := words[|words| - 1];
    assert last in words;
    DropLast(last)
  }

  /**
   * get_property_type of ios-hooker.py: the text between the first `)` and the last space,
   * one trailing `*` split off as the pointer flag, then one leading space dropped.
   */
  function IosPropertyType(line: string): (r: Result<ObjcType>)
    ensures r.Err? <==> ')' !in line || ' ' !in line
  {
    if ')' !in line || ' ' !in line then Err(SubstringNotFound)
    else
      Ok(Unstar(Slice(line, Find(line, ')') + 1, RFind(line, ' '))))
  }

  /** The type of a property's type text: one trailing `*` is the pointer flag, one leading space goes. */
  function Unstar(name: string): (r: ObjcType)
    ensures r.isPointer <==> EndsWith(name, "*")
    ensures |r.className| <= |name|
  {
    var ptr := EndsWith(name, "*");
    var unstarred := if ptr then DropLast(name) else name;
    if StartsWith(unstarred, " ") then ObjcType(unstarred[1..], ptr)
    else ObjcType(unstarred, ptr)
  }

  /**
   * get_property_type of hooker.py: the second space-separated word after the first `)`,
   * never a pointer; with fewer than two words, the IndexError of `[1]`.
   */
  function HookerPropertyType(line: string): (r: Result<ObjcType>)
    ensures r.Ok? ==> !r.value.isPointer
    ensures r.Err? <==> ')' !in line || |Split(line[Find(line, ')') + 1..], ' ')| < 2
    ensures r.Err? ==> r.error == (if ')' !in line then SubstringNotFound else IndexOutOfRange)
  {
    if ')' !in line then Err(SubstringNotFound)
    else
      var words := Split(line[Find(line, ')') + 1..], ' ');
      if |words| < 2 then Err(IndexOutOfRange) else Ok(ObjcType(words[1], false))
  }

  /** get_property_type of a version. */
  function PropertyTypeOf(v: Variant, line: string): Result<ObjcType>
  {
    match v
    case IosHooker => IosPropertyType(line)
    case Hooker => HookerPropertyType(line)
  }

  /**
   * ios-hooker.py's method name is a prefix of the text after the first `)` without any `:`;
   * it stops at the first `:` of that text, or, with none, one character short of its end.
   */
  lemma IosMethodNameSpec(line: string)
    requires ')' in line
    ensures var rest := line[Find(line, ')') + 1..];
      var r := IosMethodName(line).value;
      r <= rest && ':' !in r
      && (':' in rest ==> rest[|r|] == ':')
      && (':' !in rest ==> |r| == if rest == [] then 0 else |rest| - 1)
  {
    var rest := line[Find(line, ')') + 1..];
    var r := IosMethodName(line).value;
    if ':' in rest {
      assert r == rest[..Find(rest, ':')];
    } else {
      assert r == DropLast(rest);
    }
  }

  /** When the first `:` follows the first `)`, it is also the first `:` after that `)`. */
  lemma ColonAfterParen(line: string)
    requires ')' in line && ':' in line && Find(line, ')') < Find(line, ':')
    ensures var p := Find(line, ')');
      ':' in line[p + 1..] && Find(line[p + 1..], ':') == Find(line, ':') - (p + 1)
  {
    var p := Find(line, ')');
    var head, rest := line[..p + 1], line[p + 1..];
    assert line == head + rest;
    FindConcat(head, rest, ':');
  }

  /**
   * The two versions give the same method name unless a `:` comes before the first `)`:
   * hooker.py's slice of the whole line then ends before it starts.
   */
  lemma MethodNamesAgree(line: string)
    requires ':' in line ==> Find(line, ')') < Find(line, ':')
    ensures HookerMethodName(line) == IosMethodName(line)
  {
    if ')' in line {
      if ':' in line {
        MethodNamesAgreeColon(line);
      } else {
        MethodNamesAgreeNoColon(line);
      }
    }
  }

  /** The two method names agree on a line whose first `:` follows its first `)`. */
  lemma MethodNamesAgreeColon(line: string)
    requires ')' in line && ':' in line && Find(line, ')') < Find(line, ':')
    ensures HookerMethodName(line) == IosMethodName(line)
  {
    var p, c := Find(line, ')'), Find(line, ':');
    var rest, name := line[p + 1..], line[p + 1..c];
    assert ColonOrLast(rest) == c - (p + 1) by {
      ColonAfterParen(line);
    }
    assert Slice(line, p + 1, c) == name by {
      SliceWithin(line, p + 1, c);
    }
    assert Slice(rest, 0, c - (p + 1)) == name by {
      SliceWithin(rest, 0, c - (p + 1));
      PrefixOfSuffix(line, p + 1, c);
    }
  }

  /** The two method names agree on a line with a `)` and no `:`. */
  lemma MethodNamesAgreeNoColon(line: string)
    requires ')' in line && ':' !in line
    ensures HookerMethodName(line) == IosMethodName(line)
  {
    var p := Find(line, ')');
    var rest := line[p + 1..];
    assert ':' !in rest;
    if p + 1 < |line| {
      SliceToLast(line, p + 1);
      SliceToLast(rest, 0);
      assert rest[0..|rest| - 1] == line[p + 1..|line| - 1];
    } else {
      SliceEmpty(line, p + 1, -1);
      SliceEmpty(rest, 0, -1);
    }
  }

  /** With a `:` before the first `)`, hooker.py's method name is empty. */
  lemma HookerMethodNameColonFirst(line: string)
    requires ')' in line && ':' in line && Find(line, ':') < Find(line, ')')
    ensures HookerMethodName(line) == Ok("")
  {
    SliceEmpty(line, Find(line, ')') + 1, Find(line, ':'));
  }

  /**
   * ios-hooker.py names the return type `line[2:p]` for the first `)` at `p` and marks a
   * pointer iff that name has a `*`.
   */
  lemma IosReturnTypeSpec(line: string)
    requires ')' in line
    ensures var p := Find(line, ')');
      var t := IosReturnType(line).value;
      t.className == Slice(line, 2, p) && (t.isPointer <==> '*' in Slice(line, 2, p))
  {
    var p := Find(line, ')');
    SliceDropLast(line, 2, p);
    SliceLastNot(line, 2, p, '*');
  }

  /**
   * hooker.py also names the return type `line[2:p]`, but marks a pointer iff `line[:p + 1]`
   * has a `*`.
   */
  lemma HookerReturnTypeSpec(line: string)
    requires ')' in line
    ensures var p := Find(line, ')');
      var t := HookerReturnType(line).value;
      t.className == Slice(line, 2, p) && (t.isPointer <==> '*' in line[..p + 1])
  {
    var p := Find(line, ')');
    var ctype := line[..p + 1];
    SliceWithin(line, 0, p + 1);
    if p >= 2 {
      SliceWithin(ctype, 2, p);
      SliceToLast(ctype, 2);
      SliceWithin(line, 2, p);
      assert ctype[2..p] == line[2..p];
    } else {
      SliceEmpty(ctype, 2, -1);
      SliceEmpty(line, 2, p);
    }
  }

  /** When the first two characters hold no `*`, the versions read the same return type. */
  lemma ReturnTypesAgree(line: string)
    requires '*' !in line[..if |line| < 2 then |line| else 2]
    ensures HookerReturnType(line) == IosReturnType(line)
  {
    if ')' in line {
      var p := Find(line, ')');
      IosReturnTypeSpec(line);
      HookerReturnTypeSpec(line);
      if p >= 2 {
        SliceWithin(line, 2, p);
        assert line[..p + 1] == line[..2] + line[2..p] + [')'];
      } else {
        assert line[..p + 1] == line[..if |line| < 2 then |line| else 2][..p + 1];
      }
    }
  }

  /** A method line as a header declares it: `-(T)name:(T1)a sel:(T2)b;`. */
  function MethodLine(sigil: char, typeText: string, name: string, argumentsDecl: string): string
  {
    [sigil] + "(" + typeText + ")" + name + argumentsDecl + ";"
  }

  /** The text up to and including the `)` after the return type of a method line. */
  function MethodLineHead(sigil: char, typeText: string): string
  {
    [sigil] + "(" + typeText + ")"
  }

  /** The first `)` of a method line closes its return type; no `:` comes before it. */
  lemma MethodLineParen(sigil: char, typeText: string, name: string, argumentsDecl: string)
    requires (sigil == '+' || sigil == '-') && ')' !in typeText && ':' !in typeText
    ensures var line := MethodLine(sigil, typeText, name, argumentsDecl);
      var head := MethodLineHead(sigil, typeText);
      ')' in line && Find(line, ')') == |head| - 1 && ':' !in head
      && line == head + (name + argumentsDecl + ";")
  {
    var line := MethodLine(sigil, typeText, name, argumentsDecl);
    var head, tail := MethodLineHead(sigil, typeText), name + argumentsDecl + ";";
    var pre := [sigil] + "(" + typeText;
    assert ')' !in pre && ':' !in pre by {
      assert pre == [sigil] + ("(" + typeText);
    }
    assert line == head + tail by {
      AppendThree(head, name, argumentsDecl, ";");
    }
    assert line == pre + (")" + tail) by {
      AppendTwo(pre, ")", tail);
    }
    FindConcat(pre, ")" + tail, ')');
  }

  /** From a method line, both versions read back the return type, its text kept whole. */
  lemma MethodLineReturnType(v: Variant, sigil: char, typeText: string, name: string, argumentsDecl: string)
    requires (sigil == '+' || sigil == '-') && ')' !in typeText && ':' !in typeText
    ensures ReturnTypeOf(v, MethodLine(sigil, typeText, name, argumentsDecl))
            == Ok(ObjcType(typeText, '*' in typeText))
  {
    var line := MethodLine(sigil, typeText, name, argumentsDecl);
    MethodLineParen(sigil, typeText, name, argumentsDecl);
    var p := |MethodLineHead(sigil, typeText)| - 1;
    assert line[2..p] == typeText;
    SliceWithin(line, 2, p);
    IosReturnTypeSpec(line);
    HookerReturnTypeSpec(line);
    assert line[..p + 1] == [sigil] + "(" + typeText + ")";
  }

  /**
   * The text after a method line's `)`: its first `:` opens the arguments, and the name
   * before it, or the whole text but its `;`, is the method name.
   */
  lemma TailName(name: string, argumentsDecl: string)
    requires ':' !in name && (argumentsDecl == "" || argumentsDecl[0] == ':')
    ensures var tail := name + argumentsDecl + ";";
      (':' in tail <==> argumentsDecl != "")
      && (argumentsDecl != "" ==> Find(tail, ':') == |name|)
      && Slice(tail, 0, ColonOrLast(tail)) == name
  {
    var tail := name + argumentsDecl + ";";
    assert tail == name + (argumentsDecl + ";");
    FindConcat(name, argumentsDecl + ";", ':');
    if argumentsDecl == "" {
      assert ':' !in ";";
      SliceToLast(tail, 0);
      assert tail[0..|tail| - 1] == name;
    } else {
      assert (argumentsDecl + ";")[0] == ':';
      SliceWithin(tail, 0, |name|);
      assert tail[0..|name|] == name;
    }
  }

  /** From a method line, both versions read back the method name. */
  lemma MethodLineName(v: Variant, sigil: char, typeText: string, name: string, argumentsDecl: string)
    requires (sigil == '+' || sigil == '-') && ')' !in typeText && ':' !in typeText && ':' !in name
    requires argumentsDecl == "" || argumentsDecl[0] == ':'
    ensures MethodName(v, MethodLine(sigil, typeText, name, argumentsDecl)) == Ok(name)
  {
    var line := MethodLine(sigil, typeText, name, argumentsDecl);
    var head := MethodLineHead(sigil, typeText);
    var tail := name + argumentsDecl + ";";
    MethodLineParen(sigil, typeText, name, argumentsDecl);
    TailName(name, argumentsDecl);
    assert line[|head|..] == tail;
    FindConcat(head, tail, ':');
    MethodNamesAgree(line);
  }

  /** From a method line, get_arguments reads back the declared argument text. */
  lemma MethodLineArguments(sigil: char, typeText: string, name: string, argumentsDecl: string)
    requires (sigil == '+' || sigil == '-') && ')' !in typeText && ':' !in typeText && ':' !in name
    requires argumentsDecl == "" || argumentsDecl[0] == ':'
    ensures ArgumentsText(MethodLine(sigil, typeText, name, argumentsDecl)) == argumentsDecl
  {
    var line := MethodLine(sigil, typeText, name, argumentsDecl);
    var head := MethodLineHead(sigil, typeText);
    var tail := name + argumentsDecl + ";";
    MethodLineParen(sigil, typeText, name, argumentsDecl);
    TailName(name, argumentsDecl);
    FindConcat(head, tail, ':');
    if argumentsDecl != "" {
      var c := |head| + |name|;
      SliceToLast(line, c);
      assert line[c..|line| - 1] == argumentsDecl;
    }
  }

  /** A property line as a header declares it: `@property(attrs) T name;`. */
  function PropertyLine(attrs: string, typeText: string, name: string): string
  {
    PropertyHead(attrs) + PropertyRest(typeText, name)
  }

  /** `@property(attrs)`. */
  function PropertyHead(attrs: string): string
  {
    "@property(" + attrs + ")"
  }

  /** ` T name;`, the text after a property's attributes. */
  function PropertyRest(typeText: string, name: string): string
  {
    " " + typeText + " " + name + ";"
  }

  /** The first `)` of a property line closes its attributes. */
  lemma PropertyLineParen(attrs: string, typeText: string, name: string)
    requires ')' !in attrs
    ensures var line := PropertyLine(attrs, typeText, name);
      ')' in line && Find(line, ')') == |PropertyHead(attrs)| - 1
  {
    var pre := "@property(" + attrs;
    var rest := ")" + PropertyRest(typeText, name);
    assert ')' !in "@property(";
    assert ')' !in pre;
    assert PropertyLine(attrs, typeText, name) == pre + rest;
    FindConcat(pre, rest, ')');
  }

  /** The last space of a property line is the one before its name. */
  lemma PropertyLineLastSpace(attrs: string, typeText: string, name: string)
    requires ' ' !in name
    ensures var line := PropertyLine(attrs, typeText, name);
      ' ' in line && RFind(line, ' ') == |line| - |name| - 2
  {
    var line := PropertyLine(attrs, typeText, name);
    var q := |line| - |name| - 2;
    assert line[q] == ' ';
    assert line[q + 1..] == name + ";";
    assert ' ' !in name + ";";
  }

  /** Both versions read a property's name back from its line. */
  lemma PropertyLineName(attrs: string, typeText: string, name: string)
    requires ' ' !in name
    ensures PropertyName(PropertyLine(attrs, typeText, name)) == name
  {
    var front := PropertyHead(attrs) + " " + typeText;
    var y := name + ";";
    assert ' ' !in y;
    assert PropertyLine(attrs, typeText, name) == front + [' '] + "" + y;
    SplitConcat(front, "", ' ');
    SplitSuffix(front + [' '] + "", y, ' ');
    assert (name + ";")[..|name|] == name;
  }

  /** ios-hooker.py's property type, given the first `)` and the last space of the line. */
  lemma IosPropertyTypeAt(line: string, p: int, q: int)
    requires ')' in line && ' ' in line && Find(line, ')') == p && RFind(line, ' ') == q && p < q
    ensures IosPropertyType(line) == Ok(Unstar(line[p + 1..q]))
  {
    SliceWithin(line, p + 1, q);
  }

  /**
   * ios-hooker.py reads a property's type text back as an argument's type is read: one
   * trailing `*` becomes the pointer flag.
   */
  lemma IosPropertyLineType(attrs: string, typeText: string, name: string)
    requires ')' !in attrs && ' ' !in name
    ensures IosPropertyType(PropertyLine(attrs, typeText, name)) == Ok(TypeFromText(typeText))
  {
    var line := PropertyLine(attrs, typeText, name);
    var h := |PropertyHead(attrs)|;
    PropertyLineParen(attrs, typeText, name);
    PropertyLineLastSpace(attrs, typeText, name);
    var q := |line| - |name| - 2;
    assert q == h + 1 + |typeText|;
    assert line[h..q] == " " + typeText;
    IosPropertyTypeAt(line, h - 1, q);
    UnstarSpaced(typeText);
  }

  /** The type of a space and a type text is the type the text declares. */
  lemma UnstarSpaced(typeText: string)
    ensures Unstar(" " + typeText) == TypeFromText(typeText)
  {
    var name := " " + typeText;
    if EndsWith(typeText, "*") {
      assert EndsWith(name, "*");
      assert DropLast(name) == " " + typeText[..|typeText| - 1];
    } else {
      assert !EndsWith(name, "*") by {
        if typeText == [] { assert name == " "; }
        else { assert name[|name| - 1..] == typeText[|typeText| - 1..]; }
      }
    }
  }

  /** hooker.py reads only the first word of a property's type text, never as a pointer. */
  lemma HookerPropertyLineType(attrs: string, typeText: string, name: string)
    requires ')' !in attrs
    ensures HookerPropertyType(PropertyLine(attrs, typeText, name))
            == Ok(ObjcType(Split(typeText, ' ')[0], false))
  {
    var line := PropertyLine(attrs, typeText, name);
    PropertyLineParen(attrs, typeText, name);
    var rest := typeText + " " + name + ";";
    assert line[|PropertyHead(attrs)|..] == PropertyRest(typeText, name) == "" + [' '] + rest;
    SplitConcat("", rest, ' ');
    assert rest == typeText + [' '] + (name + ";");
    SplitConcat(typeText, name + ";", ' ');
  }

  /** For a one-word type text without a trailing `*`, both versions read the same property type. */
  lemma PropertyTypesAgree(attrs: string, typeText: string, name: string)
    requires ')' !in attrs && ' ' !in name && ' ' !in typeText && !EndsWith(typeText, "*")
    ensures HookerPropertyType(PropertyLine(attrs, typeText, name))
            == IosPropertyType(PropertyLine(attrs, typeText, name))
            == Ok(ObjcType(typeText, false))
  {
    IosPropertyLineType(attrs, typeText, name);
    HookerPropertyLineType(attrs, typeText, name);
    SplitWithout(typeText, ' ');
  }
}
