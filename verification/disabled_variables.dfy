/** The two copies of `getDisabledVariables`: a constant string statement
    carrying `adli-disable-variable name1 name2 ...` disables those names. */
module DisabledVariables {
  import opened Wrappers
  import opened PyAst
  import opened Text

  const DisableMarker: string := "adli-disable-variable "

  /** The statement's `value` field when it is a constant. */
  function ConstantValue(s: Stmt): Option<Const> {
    match ValueField(s)
    case Some(Some(Constant(c))) => Some(c)
    case _ => None
  }

  /** `getDisabledVariables` of `getDisabledVariable.py`: the rest of the
      line after the first marker, split on whitespace.  `re.findall` on a
      constant that is not a string raises `TypeError`. */
  function DisabledVariables(s: Stmt): (r: Result<seq<string>>)
    ensures ConstantValue(s).None? ==> r == Ok([])
    ensures ConstantValue(s).Some? && !ConstantValue(s).value.StrC? ==> r.Err? && r.error.TypeError?
    ensures ConstantValue(s).Some? && ConstantValue(s).value.StrC? && Find(ConstantValue(s).value.s, DisableMarker).None?
            ==> r == Ok([])
    ensures r.Ok? ==> forall t :: t in r.value ==> t != [] && NoSpace(t)
  {
    match ConstantValue(s)
    case None => Ok([])
    case Some(c) =>
      if !c.StrC? then Err(TypeError("expected string or bytes-like object"))
      else match Find(c.s, DisableMarker)
        case None => Ok([])
        case Some(i) =>
          var start := i + |DisableMarker|;
          var line := c.s[start..LineEnd(c.s, start)];
          SplitTokens(line);
          Ok(Split(line))
  }

  /** The greedy `(.*)` group of the pattern, starting at `j`: every
      character up to the next newline. */
  function Dots(v: string, j: nat): (r: string)
    requires j <= |v|
    ensures '\n' !in r
    decreases |v| - j
  {
    if j < |v| && v[j] != '\n' then [v[j]] + Dots(v, j + 1) else []
  }

  /** The first group `re.findall("adli-disable-variable (.*)", v)` returns,
      scanning for a match from position `i` on. */
  function FirstMatch(v: string, i: nat): Option<string>
    requires i <= |v|
    decreases |v| - i
  {
    if MatchAt(v, DisableMarker, i) then Some(Dots(v, i + |DisableMarker|))
    else if i == |v| then None
    else FirstMatch(v, i + 1)
  }

  /** `getDisabledVariables` of `CheckDisabledVariable.py`, read as the
      regular-expression search it performs. */
  function CheckDisabled(s: Stmt): (r: Result<seq<string>>)
    ensures ConstantValue(s).None? ==> r == Ok([])
    ensures ConstantValue(s).Some? && !ConstantValue(s).value.StrC? ==> r.Err? && r.error.TypeError?
  {
    match ConstantValue(s)
    case None => Ok([])
    case Some(StrC(v)) =>
      (match FirstMatch(v, 0)
       case Some(g) => Ok(Split(g))
       case None => Ok([]))
    case Some(_) => Err(TypeError("expected string or bytes-like object"))
  }

  lemma {:induction false} DotsIsLine(v: string, j: nat)
    requires j <= |v|
    ensures Dots(v, j) == v[j..LineEnd(v, j)]
    decreases |v| - j
  {
    if j < |v| && v[j] != '\n' {
      DotsIsLine(v, j + 1);
      assert LineEnd(v, j) == LineEnd(v, j + 1);
    }
  }

  lemma {:induction false} FirstMatchIsFind(v: string, i: nat)
    requires i <= |v|
    ensures FirstMatch(v, i) == match FindFrom(v, DisableMarker, i)
                                case Some(k) => Some(v[k + |DisableMarker|..LineEnd(v, k + |DisableMarker|)])
                                case None => None
    decreases |v| - i
  {
    if MatchAt(v, DisableMarker, i) {
      DotsIsLine(v, i + |DisableMarker|);
    } else if i == |v| {
    } else {
      FirstMatchIsFind(v, i + 1);
      if i + |DisableMarker| >= |v| {
        assert FindFrom(v, DisableMarker, i + 1).None?;
      }
    }
  }

  /** The two copies agree on every statement. */
  lemma CopiesAgree(s: Stmt)
    ensures CheckDisabled(s) == DisabledVariables(s)
  {
    if ConstantValue(s).Some? && ConstantValue(s).value.StrC? {
      FirstMatchIsFind(ConstantValue(s).value.s, 0);
    }
  }

  /** Only the line of the first marker is read: the names are the
      non-whitespace characters of that line's remainder. */
  lemma OnlyFirstLine(s: Stmt, v: string, i: nat)
    requires ConstantValue(s) == Some(StrC(v))
    requires Find(v, DisableMarker) == Some(i)
    ensures DisabledVariables(s).Ok?
    ensures Concat(DisabledVariables(s).value)
         == RemoveSpaces(v[i + |DisableMarker|..LineEnd(v, i + |DisableMarker|)])
  {
    SplitTokens(v[i + |DisableMarker|..LineEnd(v, i + |DisableMarker|)]);
  }

  /** The documented form `adli-disable-variable varName1 varName2
      varNameN`, for any three names. */
  lemma DisabledThreeNames(w1: string, w2: string, w3: string)
    requires w1 != [] && w2 != [] && w3 != []
    requires NoSpace(w1) && NoSpace(w2) && NoSpace(w3)
    ensures DisabledVariables(ExprStmt(Constant(StrC(DisableMarker + w1 + " " + w2 + " " + w3)), None))
         == Ok([w1, w2, w3])
  {
    var line := w1 + " " + w2 + " " + w3;
    var v := DisableMarker + line;
    assert v == DisableMarker + w1 + " " + w2 + " " + w3;
    assert Find(v, DisableMarker) == Some(0) by {
      assert v[0..|DisableMarker|] == DisableMarker;
    }
    assert v[|DisableMarker|..LineEnd(v, |DisableMarker|)] == line by {
      ThreeWordsOneLine(w1, w2, w3);
    }
    ThreeWordsSplit(w1, w2, w3);
    assert ConstantValue(ExprStmt(Constant(StrC(v)), None)) == Some(StrC(v));
  }

  /** Three words joined by spaces hold no newline. */
  lemma ThreeWordsOneLine(w1: string, w2: string, w3: string)
    requires NoSpace(w1) && NoSpace(w2) && NoSpace(w3)
    ensures var v := DisableMarker + (w1 + " " + w2 + " " + w3);
      LineEnd(v, |DisableMarker|) == |v| && v[|DisableMarker|..|v|] == w1 + " " + w2 + " " + w3
  {
    var line := w1 + " " + w2 + " " + w3;
    var v := DisableMarker + line;
    forall j | |DisableMarker| <= j < |v| ensures v[j] != '\n' {
      assert v[j] == line[j - |DisableMarker|];
      var k := j - |DisableMarker|;
      if k < |w1| { assert line[k] == w1[k]; }
      else if k == |w1| { }
      else if k < |w1| + 1 + |w2| { assert line[k] == w2[k - |w1| - 1]; }
      else if k == |w1| + 1 + |w2| { }
      else { assert line[k] == w3[k - |w1| - |w2| - 2]; }
    }
    LineEndNoNewline(v, |DisableMarker|);
    assert v[|DisableMarker|..|v|] == line;
  }

  /** Three space-separated words split back into the three words. */
  lemma ThreeWordsSplit(w1: string, w2: string, w3: string)
    requires w1 != [] && w2 != [] && w3 != []
    requires NoSpace(w1) && NoSpace(w2) && NoSpace(w3)
    ensures Split(w1 + " " + w2 + " " + w3) == [w1, w2, w3]
  {
    var line := w1 + " " + w2 + " " + w3;
    assert SplitFrom(w2 + (" " + w3), []) == [w2, w3] by {
      SplitWord(w2, " " + w3);
      assert (" " + w3)[1..] == w3;
      LastWord(w3, []);
      assert [] + w3 == w3;
    }
    assert w1 + (" " + w2 + " " + w3) == line;
    SplitWord(w1, " " + w2 + " " + w3);
    assert (" " + w2 + " " + w3)[1..] == w2 + (" " + w3);
  }

  lemma LineEndNoNewline(v: string, i: nat)
    requires i <= |v|
    requires forall j :: i <= j < |v| ==> v[j] != '\n'
    ensures LineEnd(v, i) == |v|
    decreases |v| - i
  {
    if i < |v| {
      LineEndNoNewline(v, i + 1);
    }
  }

  /** Reading one whitespace-free word followed by a space. */
  lemma SplitWord(w: string, rest: string)
    requires w != [] && NoSpace(w)
    requires rest != [] && rest[0] == ' '
    ensures SplitFrom(w + rest, []) == [w] + SplitFrom(rest[1..], [])
  {
    WordPrefix(w, rest, []);
    assert [] + w == w;
  }

  lemma {:induction false} WordPrefix(w: string, rest: string, cur: string)
    requires NoSpace(w)
    requires rest != [] && rest[0] == ' '
    requires cur + w != []
    ensures SplitFrom(w + rest, cur) == [cur + w] + SplitFrom(rest[1..], [])
    decreases |w|
  {
    if w == [] {
      assert w + rest == rest;
      assert cur + w == cur;
    } else {
      assert (w + rest)[0] == w[0] && (w + rest)[1..] == w[1..] + rest;
      WordPrefix(w[1..], rest, cur + [w[0]]);
      assert cur + [w[0]] + w[1..] == cur + w;
    }
  }

  /** Reading a last whitespace-free word. */
  lemma {:induction false} LastWord(w: string, cur: string)
    requires NoSpace(w) && cur + w != []
    ensures SplitFrom(w, cur) == [cur + w]
    decreases |w|
  {
    if w == [] {
      assert cur + w == cur;
    } else {
      LastWord(w[1..], cur + [w[0]]);
      assert cur + [w[0]] + w[1..] == cur + w;
    }
  }
}
