/**
 Conversion of arbitrary byte strings to Kubernetes names and labels.
 */
module KubeNames {

  newtype byte = b: int | 0 <= b < 256

  type Bytes = seq<byte>

  const DOT: byte := 46
  const DASH: byte := 45
  const SLASH: byte := 47
  const UNDERSCORE: byte := 95
  const ZERO: byte := 48

  const MAX_LABEL_LENGTH: nat := 63
  const MAX_NAME_LENGTH: nat := 253

  predicate IsDigit(ch: byte) { 48 <= ch <= 57 }

  predicate IsLower(ch: byte) { 97 <= ch <= 122 }

  predicate IsUpper(ch: byte) { 65 <= ch <= 90 }

  predicate DomainAlnum(ch: byte) { IsLower(ch) || IsDigit(ch) }

  predicate LabelAlnum(ch: byte) { IsLower(ch) || IsUpper(ch) || IsDigit(ch) }

  predicate IsValidDomainNameChar(ch: byte) {
    ch == DOT || ch == DASH || IsLower(ch) || IsDigit(ch)
  }

  predicate IsValidLabelChar(ch: byte) {
    ch == DOT || ch == DASH || ch == UNDERSCORE || IsLower(ch) || IsUpper(ch) || IsDigit(ch)
  }

  // ---------------------------------------------------------------- the documented rules

  predicate NoDoubleDot(s: Bytes) {
    forall i | 0 < i < |s| :: s[i - 1] != DOT || s[i] != DOT
  }

  predicate ValidDomainName(s: Bytes) {
    s == [] || (&& |s| <= MAX_NAME_LENGTH
                && DomainAlnum(s[0]) && DomainAlnum(s[|s| - 1])
                && (forall i | 0 <= i < |s| :: IsValidDomainNameChar(s[i]))
                && NoDoubleDot(s))
  }

  predicate ValidLabelName(s: Bytes) {
    s == [] || (&& |s| <= MAX_LABEL_LENGTH
                && LabelAlnum(s[0]) && LabelAlnum(s[|s| - 1])
                && (forall i | 0 <= i < |s| :: IsValidLabelChar(s[i])))
  }

  // ---------------------------------------------------------------- the conversion as a function

  function Lower(ch: byte): byte {
    if IsUpper(ch) then ch + 32 else ch
  }

  function AsciiLower(s: Bytes): (t: Bytes)
    ensures |t| == |s| && forall i | 0 <= i < |s| :: t[i] == Lower(s[i])
  {
    seq(|s|, i requires 0 <= i < |s| => Lower(s[i]))
  }

  type Lowering = Bytes -> Bytes

  predicate IsAscii(s: Bytes) {
    forall i | 0 <= i < |s| :: s[i] < 128
  }

  /**
   What is needed of strings.ToLower: ASCII text is lower-cased letter by letter, and other text is
   replaced by any bytes, as many or as few as Unicode says, but not by nothing.
   */
  ghost predicate Lowers(lower: Lowering) {
    && (forall s | IsAscii(s) :: lower(s) == AsciiLower(s))
    && (forall s | s != [] :: lower(s) != [])
  }

  /** "." for each bad character. */
  function Dotted(s: Bytes, valid: byte -> bool): (t: Bytes)
    ensures |t| == |s|
    ensures forall i | 0 <= i < |s| :: t[i] == if valid(s[i]) then s[i] else DOT
  {
    if s == [] then []
    else
      var n := |s| - 1;
      Dotted(s[..n], valid) + [if valid(s[n]) then s[n] else DOT]
  }

  /** A leading "0" when the first character is not alphanumeric; "." for each other bad character. */
  function Converted(s: Bytes, alnum: byte -> bool, valid: byte -> bool): Bytes {
    if s == [] || alnum(s[0]) then Dotted(s, valid) else [ZERO] + Dotted(s, valid)
  }

  /** Every maximal run of dots becomes one dot. */
  function Collapse(s: Bytes): Bytes {
    if |s| < 2 then s
    else if s[0] == DOT && s[1] == DOT then Collapse(s[1..])
    else [s[0]] + Collapse(s[1..])
  }

  function Clip(s: Bytes, maxLength: nat): (t: Bytes)
    ensures |t| <= maxLength && t <= s
  {
    if |s| > maxLength then s[..maxLength] else s
  }

  /** The last character is made alphanumeric; near the limit two characters give way to one. */
  function Repair(s: Bytes, maxLength: nat, alnum: byte -> bool): Bytes
    requires maxLength >= 3
  {
    if s == [] || alnum(s[|s| - 1]) then s
    else if |s| < maxLength - 1 then s + [ZERO]
    else s[..|s| - 2] + [ZERO]
  }

  function DomainName(lower: Lowering, name: Bytes): Bytes {
    Repair(Clip(Collapse(Converted(lower(name), DomainAlnum, IsValidDomainNameChar)), MAX_NAME_LENGTH),
           MAX_NAME_LENGTH, DomainAlnum)
  }

  function LabelName(name: Bytes): Bytes {
    Repair(Clip(Converted(name, LabelAlnum, IsValidLabelChar), MAX_LABEL_LENGTH), MAX_LABEL_LENGTH, LabelAlnum)
  }

  // ---------------------------------------------------------------- dots

  /** strings.ReplaceAll(s, "..", "."): non-overlapping, from the left. */
  function ReplaceAll(s: Bytes): (t: Bytes)
    ensures |t| <= |s| && (s == [] <==> t == [])
    ensures s != [] ==> t[0] == s[0]
  {
    if |s| < 2 then s
    else if s[0] == DOT && s[1] == DOT then [DOT] + ReplaceAll(s[2..])
    else [s[0]] + ReplaceAll(s[1..])
  }

  function DoubleDotFrom(s: Bytes, i: nat): (r: int)
    requires i <= |s|
    ensures r == -1 || i <= r < |s| - 1
    ensures r >= 0 ==> s[r] == DOT && s[r + 1] == DOT
    ensures r == -1 ==> forall k | i < k < |s| :: !(s[k - 1] == DOT && s[k] == DOT)
    decreases |s| - i
  {
    if i + 1 >= |s| then -1
    else if s[i] == DOT && s[i + 1] == DOT then i
    else DoubleDotFrom(s, i + 1)
  }

  /** strings.Index(s, ".."). */
  function IndexDoubleDot(s: Bytes): (i: int)
    ensures -1 <= i < |s|
    ensures i >= 0 ==> i + 1 < |s| && s[i] == DOT && s[i + 1] == DOT
    ensures i == -1 <==> NoDoubleDot(s)
  {
    DoubleDotFrom(s, 0)
  }

  lemma {:induction false} CollapseCons(c: byte, u: Bytes)
    ensures Collapse([c] + u) == if u != [] && c == DOT && u[0] == DOT then Collapse(u) else [c] + Collapse(u)
  {
    assert ([c] + u)[1..] == u;
  }

  /** One round of the rewriting loop does not change what the dots collapse to. */
  lemma {:induction false} ReplaceKeepsCollapse(s: Bytes)
    ensures Collapse(ReplaceAll(s)) == Collapse(s)
    decreases |s|
  {
    if |s| >= 2 {
      assert s == [s[0]] + s[1..] && s[1..] == [s[1]] + s[2..];
      if s[0] == DOT && s[1] == DOT {
        ReplaceKeepsCollapse(s[2..]);
        CollapseCons(DOT, ReplaceAll(s[2..]));
        CollapseCons(DOT, s[2..]);
      } else {
        ReplaceKeepsCollapse(s[1..]);
        CollapseCons(s[0], ReplaceAll(s[1..]));
        CollapseCons(s[0], s[1..]);
      }
    }
  }

  lemma {:induction false} ReplaceShortens(s: Bytes)
    requires !NoDoubleDot(s)
    ensures |ReplaceAll(s)| < |s|
    decreases |s|
  {
    if !(s[0] == DOT && s[1] == DOT) {
      var i :| 0 < i < |s| && s[i - 1] == DOT && s[i] == DOT;
      assert s[1..][i - 2] == DOT && s[1..][i - 1] == DOT;
      ReplaceShortens(s[1..]);
    }
  }

  lemma {:induction false} CollapseFixed(s: Bytes)
    requires NoDoubleDot(s)
    ensures Collapse(s) == s
    decreases |s|
  {
    if |s| >= 2 {
      assert s[0] != DOT || s[1] != DOT;
      assert forall i | 0 < i < |s[1..]| :: s[1..][i] == s[i + 1] && s[1..][i - 1] == s[i];
      CollapseFixed(s[1..]);
    }
  }

  ghost predicate AllValid(s: Bytes, valid: byte -> bool) {
    forall i | 0 <= i < |s| :: valid(s[i])
  }

  lemma {:induction false} CollapseShape(s: Bytes)
    requires AllValid(s, IsValidDomainNameChar)
    ensures var t := Collapse(s);
            && NoDoubleDot(t) && AllValid(t, IsValidDomainNameChar)
            && (s != [] ==> t != [] && t[0] == s[0])
    decreases |s|
  {
    if |s| >= 2 {
      assert forall i | 0 <= i < |s[1..]| :: s[1..][i] == s[i + 1];
      CollapseShape(s[1..]);
    }
  }

  // ---------------------------------------------------------------- results are valid, valid is fixed

  lemma RepairValid(s: Bytes, maxLength: nat, alnum: byte -> bool, valid: byte -> bool)
    requires maxLength >= 3 && |s| <= maxLength
    requires AllValid(s, valid) && valid(ZERO) && alnum(ZERO)
    requires s != [] ==> alnum(s[0])
    ensures var r := Repair(s, maxLength, alnum);
            && |r| <= maxLength && AllValid(r, valid)
            && (s == [] ==> r == []) && (s != [] ==> r != [] && alnum(r[0]) && alnum(r[|r| - 1]))
    ensures NoDoubleDot(s) ==> NoDoubleDot(Repair(s, maxLength, alnum))
  {
  }

  lemma ConvertedValid(s: Bytes, alnum: byte -> bool, valid: byte -> bool)
    requires valid(ZERO) && valid(DOT) && alnum(ZERO)
    requires s != [] && alnum(s[0]) ==> valid(s[0])
    ensures var c := Converted(s, alnum, valid);
            AllValid(c, valid) && (c == [] <==> s == []) && (c != [] ==> alnum(c[0]))
  {
  }

  /** Every byte string is converted to a valid name; the result is empty only for the empty string. */
  lemma DomainNameValid(lower: Lowering, name: Bytes)
    requires Lowers(lower)
    ensures ValidDomainName(DomainName(lower, name))
    ensures DomainName(lower, name) == [] <==> name == []
  {
    assert IsAscii([]) && AsciiLower([]) == [];
    ConvertedValid(lower(name), DomainAlnum, IsValidDomainNameChar);
    var c := Converted(lower(name), DomainAlnum, IsValidDomainNameChar);
    CollapseShape(c);
    RepairValid(Clip(Collapse(c), MAX_NAME_LENGTH), MAX_NAME_LENGTH, DomainAlnum, IsValidDomainNameChar);
  }

  lemma ConvertedFixed(s: Bytes, alnum: byte -> bool, valid: byte -> bool)
    requires AllValid(s, valid) && (s != [] ==> alnum(s[0]))
    ensures Converted(s, alnum, valid) == s
  {
    assert Dotted(s, valid) == s;
  }

  /** Lower-casing of ASCII letters only is such a function. */
  lemma AsciiLowers()
    ensures Lowers(AsciiLower)
  {
  }

  lemma LowerFixed(lower: Lowering, s: Bytes)
    requires Lowers(lower) && AllValid(s, IsValidDomainNameChar)
    ensures lower(s) == s
  {
    forall i | 0 <= i < |s| ensures s[i] < 128 && AsciiLower(s)[i] == s[i] { assert IsValidDomainNameChar(s[i]); }
    assert IsAscii(s) && AsciiLower(s) == s;
  }

  lemma ValidDomainUnchanged(lower: Lowering, name: Bytes)
    requires Lowers(lower) && ValidDomainName(name)
    ensures DomainName(lower, name) == name
  {
    LowerFixed(lower, name);
    ConvertedFixed(name, DomainAlnum, IsValidDomainNameChar);
    CollapseFixed(name);
  }

  /** The valid names are exactly the fixed points. */
  lemma DomainNameFixed(lower: Lowering, name: Bytes)
    requires Lowers(lower)
    ensures DomainName(lower, name) == name <==> ValidDomainName(name)
  {
    DomainNameValid(lower, name);
    if ValidDomainName(name) { ValidDomainUnchanged(lower, name); }
  }

  lemma LabelNameValid(name: Bytes)
    ensures ValidLabelName(LabelName(name))
    ensures LabelName(name) == [] <==> name == []
  {
    ConvertedValid(name, LabelAlnum, IsValidLabelChar);
    var c := Converted(name, LabelAlnum, IsValidLabelChar);
    RepairValid(Clip(c, MAX_LABEL_LENGTH), MAX_LABEL_LENGTH, LabelAlnum, IsValidLabelChar);
  }

  lemma ValidLabelUnchanged(name: Bytes)
    requires ValidLabelName(name)
    ensures LabelName(name) == name
  {
    ConvertedFixed(name, LabelAlnum, IsValidLabelChar);
  }

  lemma LabelNameFixed(name: Bytes)
    ensures LabelName(name) == name <==> ValidLabelName(name)
  {
    LabelNameValid(name);
    if ValidLabelName(name) { ValidLabelUnchanged(name); }
  }

  // ---------------------------------------------------------------- what the results are

  const LOWER_CASE := "abcdefghijklmnopqrstuvwxyz"
  const UPPER_CASE := "ABCDEFGHIJKLMNOPQRSTUVWXYZ"

  function Char(ch: byte): char {
    ch as int as char
  }

  /** The character classes, spelled out, and lower-casing letter by letter. */
  lemma Classes(ch: byte)
    ensures DomainAlnum(ch) <==> Char(ch) in LOWER_CASE || Char(ch) in "0123456789"
    ensures LabelAlnum(ch) <==> Char(ch) in LOWER_CASE || Char(ch) in UPPER_CASE || Char(ch) in "0123456789"
    ensures IsValidDomainNameChar(ch) <==> DomainAlnum(ch) || Char(ch) in ".-"
    ensures IsValidLabelChar(ch) <==> LabelAlnum(ch) || Char(ch) in ".-_"
    ensures Char(DOT) == '.' && Char(ZERO) == '0' && Char(SLASH) == '/'
  {
    InRange(LOWER_CASE, 'a', Char(ch));
    InRange(UPPER_CASE, 'A', Char(ch));
    InRange("0123456789", '0', Char(ch));
  }

  /** The characters of a string that counts up. */
  lemma InRange(s: string, first: char, c: char)
    requires first < '\U{7f}' && |s| <= 26 && forall i | 0 <= i < |s| :: s[i] as int == first as int + i
    ensures c in s <==> first as int <= c as int < first as int + |s|
  {
    if first as int <= c as int < first as int + |s| { assert s[c as int - first as int] == c; }
  }

  /** Lower-casing takes the i-th upper-case letter to the i-th lower-case one, and leaves the rest. */
  lemma Lowercase(ch: byte, i: nat)
    requires i < 26
    ensures Char(ch) == UPPER_CASE[i] ==> Char(Lower(ch)) == LOWER_CASE[i]
    ensures Char(ch) !in UPPER_CASE ==> Lower(ch) == ch
  {
    InRange(UPPER_CASE, 'A', Char(ch));
    assert UPPER_CASE[i] as int == 65 + i && LOWER_CASE[i] as int == 97 + i;
  }

  /**
   The conversion, character by character: valid ones stay, others become dots, and a zero goes before a
   first character that is not alphanumeric.
   */
  lemma ConvertedAt(s: Bytes, alnum: byte -> bool, valid: byte -> bool, i: nat)
    requires i < |s|
    ensures var c := Converted(s, alnum, valid); var d := if alnum(s[0]) then 0 else 1;
            && |c| == |s| + d && (d == 1 ==> Char(c[0]) == '0')
            && (valid(s[i]) ==> c[i + d] == s[i]) && (!valid(s[i]) ==> Char(c[i + d]) == '.')
  {
  }

  ghost predicate AllDots(s: Bytes) {
    forall i | 0 <= i < |s| :: s[i] == DOT
  }

  /**
   Collapsing, run by run: a text without two dots in a row stays, a run of dots becomes one dot, and
   texts whose dots do not meet are collapsed independently of each other.
   */
  lemma CollapseRuns(s: Bytes, u: Bytes, v: Bytes)
    ensures NoDoubleDot(s) ==> Collapse(s) == s
    ensures AllDots(s) && s != [] ==> Collapse(s) == [DOT]
    ensures u == [] || v == [] || u[|u| - 1] != DOT || v[0] != DOT ==> Collapse(u + v) == Collapse(u) + Collapse(v)
  {
    if NoDoubleDot(s) { CollapseFixed(s); }
    if AllDots(s) && s != [] { CollapseDots(s); }
    if u == [] {
      assert u + v == v;
    } else if v == [] {
      assert u + v == u;
    } else if u[|u| - 1] != DOT || v[0] != DOT {
      CollapseApart(u, v);
    }
  }

  lemma {:induction false} CollapseDots(s: Bytes)
    requires AllDots(s) && s != []
    ensures Collapse(s) == [DOT]
    decreases |s|
  {
    if |s| >= 2 {
      assert AllDots(s[1..]);
      CollapseDots(s[1..]);
    }
  }

  lemma {:induction false} CollapseApart(u: Bytes, v: Bytes)
    requires u != [] && v != [] && (u[|u| - 1] != DOT || v[0] != DOT)
    ensures Collapse(u + v) == Collapse(u) + Collapse(v)
    decreases |u|
  {
    assert u + v == [u[0]] + (u[1..] + v) && u == [u[0]] + u[1..];
    CollapseCons(u[0], u[1..] + v);
    CollapseCons(u[0], u[1..]);
    if |u| == 1 {
      assert u[1..] + v == v;
    } else {
      CollapseApart(u[1..], v);
      assert (u[1..] + v)[0] == u[1..][0];
    }
  }

  /**
   What truncation and repair make of the converted text c: nothing but the last character is new; a text
   that fits and ends well stays; a short one gets a zero; near the limit of max bytes at most two
   characters are lost.
   */
  ghost predicate Finished(c: Bytes, r: Bytes, max: nat, alnum: byte -> bool)
    requires max >= 3
  {
    && (r != [] ==> r[..|r| - 1] <= c)
    && (|c| <= max && (c == [] || alnum(c[|c| - 1])) ==> r == c)
    && (c != [] && !alnum(c[|c| - 1]) && |c| < max - 1 ==> r == c + [ZERO])
    && (max - 1 <= |c| <= max && !alnum(c[|c| - 1]) ==> r == c[..|c| - 2] + [ZERO])
    && (|c| > max && alnum(c[max - 1]) ==> r == c[..max])
    && (|c| > max && !alnum(c[max - 1]) ==> r == c[..max - 2] + [ZERO])
    && |r| >= (if |c| < max then |c| else max) - 1
  }

  /** The label name of any text, in terms of the converted text. */
  lemma LabelNameFinished(name: Bytes)
    ensures Finished(Converted(name, LabelAlnum, IsValidLabelChar), LabelName(name), 63, LabelAlnum)
  {
  }

  /** The domain name of any text, in terms of the converted text after collapsing. */
  lemma DomainNameFinished(lower: Lowering, name: Bytes)
    ensures Finished(Collapse(Converted(lower(name), DomainAlnum, IsValidDomainNameChar)), DomainName(lower, name), 253,
                     DomainAlnum)
  {
  }

  // ---------------------------------------------------------------- the loops

  lemma NextDotted(s: Bytes, i: nat, valid: byte -> bool)
    requires i < |s|
    ensures Dotted(s[..i + 1], valid) == Dotted(s[..i], valid) + [if valid(s[i]) then s[i] else DOT]
  {
    assert s[..i + 1][..i] == s[..i];
  }

  /** One more character. */
  lemma NextConverted(s: Bytes, i: nat, alnum: byte -> bool, valid: byte -> bool)
    requires i < |s|
    ensures Converted(s[..i + 1], alnum, valid)
         == (if i == 0 && !alnum(s[0]) then [ZERO] else Converted(s[..i], alnum, valid))
            + [if valid(s[i]) then s[i] else DOT]
  {
    NextDotted(s, i, valid);
  }

  /** The first loop of ToDomainName. */
  method ConvertChars(chars: Bytes) returns (ret: Bytes)
    ensures ret == Converted(chars, DomainAlnum, IsValidDomainNameChar)
  {
    ret := [];
    for i := 0 to |chars|
      invariant ret == Converted(chars[..i], DomainAlnum, IsValidDomainNameChar)
    {
      var ch := chars[i];
      NextConverted(chars, i, DomainAlnum, IsValidDomainNameChar);
      if i == 0 {
        if DomainAlnum(ch) {
          ret := ret + [ch];
        } else {
          ret := ret + [ZERO];
          if IsValidDomainNameChar(ch) {
            ret := ret + [ch];
          } else {
            ret := ret + [DOT];
          }
        }
      } else {
        if IsValidDomainNameChar(ch) {
          ret := ret + [ch];
        } else {
          ret := ret + [DOT];
        }
      }
    }
    assert chars[..|chars|] == chars;
  }

  method ToDomainName(lower: Lowering, name: Bytes) returns (r: Bytes)
    ensures r == DomainName(lower, name)
  {
    var chars := lower(name);
    ConvertedValid(chars, DomainAlnum, IsValidDomainNameChar);
    var retStr := ConvertChars(chars);
    ghost var goal := retStr;
    while IndexDoubleDot(retStr) > 0
      invariant Collapse(retStr) == Collapse(goal)
      invariant retStr != [] ==> DomainAlnum(retStr[0])
      decreases |retStr|
    {
      ReplaceKeepsCollapse(retStr);
      ReplaceShortens(retStr);
      retStr := ReplaceAll(retStr);
    }
    CollapseFixed(retStr);
    r := Finish(retStr, MAX_NAME_LENGTH, DomainAlnum);
  }

  /** Truncation and repair of the last character. */
  method Finish(converted: Bytes, maxLength: nat, alnum: byte -> bool) returns (r: Bytes)
    requires maxLength >= 3
    ensures r == Repair(Clip(converted, maxLength), maxLength, alnum)
  {
    var retStr := converted;
    var strLen := |retStr|;
    if strLen == 0 {
      return retStr;
    }
    if strLen > maxLength {
      strLen := maxLength;
      retStr := retStr[..strLen];
    }
    var ch := retStr[strLen - 1];
    if alnum(ch) {
      return retStr;
    }
    if strLen < maxLength - 1 {
      return retStr + [ZERO];
    }
    r := retStr[..strLen - 2] + [ZERO];
  }

  method ToLabelName(name: Bytes) returns (r: Bytes)
    ensures r == LabelName(name)
  {
    var ret: Bytes := [];
    for i := 0 to |name|
      invariant ret == Converted(name[..i], LabelAlnum, IsValidLabelChar)
    {
      var ch := name[i];
      NextConverted(name, i, LabelAlnum, IsValidLabelChar);
      if i == 0 {
        if LabelAlnum(ch) {
          ret := ret + [ch];
        } else {
          ret := ret + [ZERO];
          if IsValidLabelChar(ch) {
            ret := ret + [ch];
          } else {
            ret := ret + [DOT];
          }
        }
      } else {
        if IsValidLabelChar(ch) {
          ret := ret + [ch];
        } else {
          ret := ret + [DOT];
        }
      }
    }
    assert name[..|name|] == name;
    r := Finish(ret, MAX_LABEL_LENGTH, LabelAlnum);
  }

  // ---------------------------------------------------------------- labels

  function SlashFrom(s: Bytes, i: nat): (r: int)
    requires i <= |s|
    ensures r == -1 || i <= r < |s|
    ensures r >= 0 ==> s[r] == SLASH && forall k | i <= k < r :: s[k] != SLASH
    ensures r == -1 ==> forall k | i <= k < |s| :: s[k] != SLASH
    decreases |s| - i
  {
    if i == |s| then -1 else if s[i] == SLASH then i else SlashFrom(s, i + 1)
  }

  /** strings.Index(s, "/"). */
  function IndexSlash(s: Bytes): (i: int)
    ensures -1 <= i < |s|
    ensures i >= 0 ==> s[i] == SLASH && forall k | 0 <= k < i :: s[k] != SLASH
    ensures i == -1 ==> forall k | 0 <= k < |s| :: s[k] != SLASH
  {
    SlashFrom(s, 0)
  }

  /** The prefix before the first slash, and the name after it; without a slash all is name. */
  function SplitLabel(s: Bytes): (Bytes, Bytes) {
    var i := IndexSlash(s);
    if i < 0 then ([], s) else (s[..i], s[i + 1..])
  }

  /** The parts around the first slash; without one there is no prefix. */
  lemma SplitExactly(s: Bytes)
    ensures var (prefix, name) := SplitLabel(s);
            if SLASH in s then s == prefix + [SLASH] + name && SLASH !in prefix else prefix == [] && name == s
  {
    var i := IndexSlash(s);
    if i >= 0 { assert s == s[..i] + [SLASH] + s[i + 1..]; }
  }

  /** Prefix and name joined; either may be missing. */
  function JoinLabel(prefix: Bytes, name: Bytes): Bytes {
    if prefix == [] then name
    else if name == [] then prefix
    else prefix + [SLASH] + name
  }

  function Label(lower: Lowering, input: Bytes): Bytes {
    JoinLabel(DomainName(lower, SplitLabel(input).0), LabelName(SplitLabel(input).1))
  }

  method ToLabel(lower: Lowering, input: Bytes) returns (r: Bytes)
    ensures r == Label(lower, input)
  {
    var prefix, labelPart := SplitAtSlash(input);
    var newPrefix := ToDomainName(lower, prefix);
    var newLabel := ToLabelName(labelPart);
    r := JoinParts(newPrefix, newLabel);
  }

  /** The first part of ToLabel. */
  method SplitAtSlash(input: Bytes) returns (prefix: Bytes, labelPart: Bytes)
    ensures (prefix, labelPart) == SplitLabel(input)
  {
    var slashIndex := IndexSlash(input);
    if slashIndex < 0 {
      prefix := [];
      labelPart := input;
    } else if slashIndex == |input| - 1 {
      prefix := input[..slashIndex];
      labelPart := [];
      assert input[slashIndex + 1..] == [];
    } else {
      prefix := input[..slashIndex];
      labelPart := input[slashIndex + 1..];
    }
  }

  /** The last part of ToLabel. */
  method JoinParts(newPrefix: Bytes, newLabel: Bytes) returns (ret: Bytes)
    ensures ret == JoinLabel(newPrefix, newLabel)
  {
    ret := [];
    if newPrefix == [] {
      if newLabel == [] {
        var noLabel: Bytes := [110, 111, 108, 97, 98, 101, 108];  // "nolabel", which is not returned
      } else {
        ret := newLabel;
      }
    } else if newLabel == [] {
      ret := newPrefix;
    } else {
      ret := newPrefix + [SLASH] + newLabel;
    }
  }

  /** A valid label: a valid name of at least one character, after an optional valid prefix. */
  predicate ValidLabel(s: Bytes) {
    var (prefix, name) := SplitLabel(s);
    && ValidDomainName(prefix) && ValidLabelName(name)
    && (IndexSlash(s) >= 0 ==> prefix != [] && name != [])
  }

  lemma NoSlashInside(prefix: Bytes, name: Bytes)
    requires ValidDomainName(prefix) && ValidLabelName(name)
    ensures forall i | 0 <= i < |prefix| :: prefix[i] != SLASH
    ensures forall i | 0 <= i < |name| :: name[i] != SLASH
  {
    forall i | 0 <= i < |prefix| ensures prefix[i] != SLASH { assert IsValidDomainNameChar(prefix[i]); }
    forall i | 0 <= i < |name| ensures name[i] != SLASH { assert IsValidLabelChar(name[i]); }
  }

  lemma SlashJoined(prefix: Bytes, name: Bytes)
    requires ValidDomainName(prefix) && ValidLabelName(name)
    ensures IndexSlash(JoinLabel(prefix, name)) == if prefix != [] && name != [] then |prefix| else -1
  {
    NoSlashInside(prefix, name);
    if prefix != [] && name != [] { assert (prefix + [SLASH] + name)[|prefix|] == SLASH; }
  }

  lemma SplitJoined(prefix: Bytes, name: Bytes)
    requires ValidDomainName(prefix) && ValidLabelName(name)
    ensures SplitLabel(JoinLabel(prefix, name)) == if name == [] then ([], prefix) else (prefix, name)
  {
    SlashJoined(prefix, name);
    var s := prefix + [SLASH] + name;
    assert s[..|prefix|] == prefix && s[|prefix| + 1..] == name;
  }

  lemma DomainAsName(p: Bytes)
    requires ValidDomainName(p)
    ensures ValidLabelName(p) <==> |p| <= MAX_LABEL_LENGTH
  {
    forall i | 0 <= i < |p| ensures IsValidLabelChar(p[i]) { assert IsValidDomainNameChar(p[i]); }
  }

  /** What converting a joined pair again gives. */
  lemma LabelOfJoined(lower: Lowering, p: Bytes, n: Bytes)
    requires Lowers(lower) && ValidDomainName(p) && ValidLabelName(n)
    ensures n != [] ==> Label(lower, JoinLabel(p, n)) == JoinLabel(p, n)
    ensures n == [] ==> Label(lower, JoinLabel(p, n)) == LabelName(p)
  {
    SplitJoined(p, n);
    DomainNameFixed(lower, if n == [] then [] else p);
    if n != [] { LabelNameFixed(n); }
  }

  /**
   The result splits into the converted prefix and the converted name. It is a valid label, and a
   fixed point, exactly unless the name part is empty and the converted prefix, which then stands
   as the name, is longer than a name may be.
   */
  lemma LabelExactly(lower: Lowering, input: Bytes)
    requires Lowers(lower)
    ensures var (prefix, name) := SplitLabel(input); var r := Label(lower, input);
            var p := DomainName(lower, prefix);
            && SplitLabel(r) == (if name == [] then ([], p) else (p, LabelName(name)))
            && (ValidLabel(r) <==> name != [] || |p| <= MAX_LABEL_LENGTH)
            && (Label(lower, r) == r <==> name != [] || |p| <= MAX_LABEL_LENGTH)
  {
    var (prefix, name) := SplitLabel(input);
    var p, n := DomainName(lower, prefix), LabelName(name);
    DomainNameValid(lower, prefix);
    LabelNameValid(name);
    SplitJoined(p, n);
    SlashJoined(p, n);
    LabelOfJoined(lower, p, n);
    DomainAsName(p);
    LabelNameFixed(p);
  }

  lemma SplitParts(input: Bytes)
    ensures SplitLabel(input) == ([], []) <==> input == [] || input == [SLASH]
  {
    var i := IndexSlash(input);
    if i >= 0 { assert input == input[..i] + [SLASH] + input[i + 1..]; }
  }

  /** The result is empty for "" and "/" only, and never longer than 317 bytes. */
  lemma LabelBounds(lower: Lowering, input: Bytes)
    requires Lowers(lower)
    ensures Label(lower, input) == [] <==> input == [] || input == [SLASH]
    ensures |Label(lower, input)| <= MAX_NAME_LENGTH + 1 + MAX_LABEL_LENGTH
  {
    SplitParts(input);
    DomainNameValid(lower, SplitLabel(input).0);
    LabelNameValid(SplitLabel(input).1);
  }
}
