/** IPv6 addresses as text. A printed address follows sections 4.1, 4.2.2, 4.2.3 and 4.3 of RFC 5952; the
    parser accepts the hexadecimal forms of section 2.2 of RFC 4291, and stops where a dotted tail begins. */
module Ipv6 {
  import opened Text

  /** One of the eight 16-bit groups. */
  type Group = x: nat | x < 0x1_0000

  // ---------------------------------------------------------------- hexadecimal groups

  function HexDigit(c: char): (v: Option<nat>)
    ensures v.Some? ==> v.value < 16
  {
    if '0' <= c <= '9' then Some(c as int - '0' as int)
    else if 'a' <= c <= 'f' then Some(c as int - 'a' as int + 10)
    else if 'A' <= c <= 'F' then Some(c as int - 'A' as int + 10)
    else None
  }

  predicate IsHex(c: char)
  {
    HexDigit(c).Some?
  }

  /** Lower case, as section 4.3 of RFC 5952 demands. */
  function HexChar(v: nat): (c: char)
    requires v < 16
    ensures HexDigit(c) == Some(v) && !('A' <= c <= 'F') && (c == '0' <==> v == 0)
  {
    if v < 10 then ('0' as int + v) as char else ('a' as int + v - 10) as char
  }

  /** The sixteen digits, in order, in both cases. */
  lemma DigitsAreHexadecimal(c: char, v: nat)
    requires v < 16
    ensures HexDigit(c) == Some(v) <==> c == "0123456789abcdef"[v] || c == "0123456789ABCDEF"[v]
    ensures HexChar(v) == "0123456789abcdef"[v]
  {
  }

  predicate AllHex(s: string)
  {
    forall i :: 0 <= i < |s| ==> IsHex(s[i])
  }

  function HexValue(s: string): nat
    requires AllHex(s)
  {
    if s == [] then 0 else HexValue(s[..|s| - 1]) * 16 + HexDigit(s[|s| - 1]).value
  }

  /** The shortest hexadecimal text of a number: no leading zeros, as section 4.1 of RFC 5952 demands. */
  function HexText(n: nat): (s: string)
    ensures s != [] && AllHex(s) && (|s| > 1 ==> s[0] != '0')
    ensures forall i :: 0 <= i < |s| ==> !('A' <= s[i] <= 'F')
  {
    if n < 16 then [HexChar(n)] else HexText(n / 16) + [HexChar(n % 16)]
  }

  lemma {:induction false} ValueOfHexText(n: nat)
    ensures HexValue(HexText(n)) == n
  {
    if n < 16 {
      assert [HexChar(n)][..0] == [];
    } else {
      ValueOfHexText(n / 16);
      assert HexText(n)[..|HexText(n)| - 1] == HexText(n / 16);
    }
  }

  predicate IsGroup(g: string)
  {
    1 <= |g| <= 4 && AllHex(g)
  }

  lemma GroupTextFits(v: Group)
    ensures IsGroup(HexText(v))
    ensures v < 16 ==> HexText(v) == [HexChar(v)]
    ensures 16 <= v < 256 ==> HexText(v) == [HexChar(v / 16), HexChar(v % 16)]
    ensures 256 <= v < 4096 ==> HexText(v) == [HexChar(v / 256), HexChar(v % 256 / 16), HexChar(v % 16)]
    ensures v >= 4096 ==> HexText(v) == [HexChar(v / 4096), HexChar(v / 256 % 16), HexChar(v % 256 / 16), HexChar(v % 16)]
  {
    hide HexText, HexChar, HexDigit;
    var x := v / 16;
    var y := x / 16;
    HexTextOnce(v);
    HexTextOnce(x);
    HexTextOnce(y);
    HexTextOnce(y / 16);
    assert y == v / 256 && x % 16 == v % 256 / 16 && y / 16 == v / 4096;
  }

  lemma HexTextOnce(n: nat)
    ensures HexText(n) == if n < 16 then [HexChar(n)] else HexText(n / 16) + [HexChar(n % 16)]
  {
  }

  lemma {:induction false} GroupValueFits(g: string)
    requires AllHex(g) && |g| <= 4
    ensures HexValue(g) < (if |g| == 0 then 1 else if |g| == 1 then 16 else if |g| == 2 then 256 else if |g| == 3 then 4096 else 65536)
    decreases |g|
  {
    if g != [] {
      GroupValueFits(g[..|g| - 1]);
    }
  }

  function Value(g: string): Group
    requires IsGroup(g)
  {
    GroupValueFits(g);
    HexValue(g)
  }

  predicate AllGroups(gs: seq<string>)
  {
    forall i :: 0 <= i < |gs| ==> IsGroup(gs[i])
  }

  function Values(gs: seq<string>): (r: seq<Group>)
    requires AllGroups(gs)
    ensures |r| == |gs| && forall i :: 0 <= i < |gs| ==> r[i] == Value(gs[i])
  {
    seq(|gs|, i requires 0 <= i < |gs| => Value(gs[i]))
  }

  function Texts(values: seq<Group>): (r: seq<string>)
    ensures |r| == |values| && forall i :: 0 <= i < |values| ==> r[i] == HexText(values[i])
  {
    seq(|values|, i requires 0 <= i < |values| => HexText(values[i]))
  }

  lemma ValuesOfTexts(values: seq<Group>)
    ensures AllGroups(Texts(values)) && Values(Texts(values)) == values
  {
    forall i | 0 <= i < |values|
      ensures IsGroup(HexText(values[i])) && Value(HexText(values[i])) == values[i]
    {
      GroupTextFits(values[i]);
      ValueOfHexText(values[i]);
    }
  }

  /** Groups with a colon between any two. */
  function Join(gs: seq<string>): string
  {
    if gs == [] then [] else if |gs| == 1 then gs[0] else gs[0] + ([':'] + Join(gs[1..]))
  }

  function Zeros(n: nat): (r: seq<Group>)
    ensures |r| == n && forall i :: 0 <= i < n ==> r[i] == 0
  {
    seq(n, _ => 0)
  }

  // ---------------------------------------------------------------- what a text means

  /** Section 2.2 of RFC 4291, form 1: eight groups. */
  ghost predicate IsFull(s: string, gs: seq<string>, address: seq<Group>)
  {
    |gs| == 8 && AllGroups(gs) && s == Join(gs) && address == Values(gs)
  }

  /** Form 2: a double colon stands for at least one group of zeros. */
  ghost predicate IsCompressed(s: string, pre: seq<string>, post: seq<string>, address: seq<Group>)
  {
    && |pre| + |post| <= 7 && AllGroups(pre) && AllGroups(post) && s == Join(pre) + [':', ':'] + Join(post)
    && address == Values(pre) + Zeros(8 - |pre| - |post|) + Values(post)
  }

  ghost predicate Denotes(s: string, address: seq<Group>)
  {
    || (exists gs: seq<string> :: IsFull(s, gs, address))
    || (exists pre: seq<string>, post: seq<string> :: IsCompressed(s, pre, post, address))
  }

  // ---------------------------------------------------------------- the parser

  /** `DottedTail`: the parser has reached a dot that may begin a dotted decimal tail. */
  datatype Outcome = NotAnAddress | DottedTail | Parsed(address: seq<Group>)

  predicate HexAt(s: string, i: nat)
  {
    i < |s| && IsHex(s[i])
  }

  /** How many characters the parser takes for a group: at most four digits. */
  function GroupLength(s: string, i: nat): (n: nat)
    requires HexAt(s, i)
    ensures i + n <= |s| && IsGroup(s[i..i + n]) && (n < 4 ==> !HexAt(s, i + n))
  {
    if !HexAt(s, i + 1) then 1 else if !HexAt(s, i + 2) then 2 else if !HexAt(s, i + 3) then 3 else 4
  }

  /** What the collected groups amount to at the end of the loop. */
  function Finish(s: string, pos: nat, parts: seq<Group>, doubleColonPos: Option<nat>): Outcome
    requires doubleColonPos.Some? ==> doubleColonPos.value <= |parts|
  {
    if pos < |s| then NotAnAddress
    else if |parts| < 8 then
      match doubleColonPos
      case None => NotAnAddress
      case Some(k) => Parsed(parts[..k] + Zeros(8 - |parts|) + parts[k..])
    else if doubleColonPos.Some? then NotAnAddress
    else Parsed(parts)
  }

  function ParseParts(s: string, pos: nat, parts: seq<Group>, doubleColonPos: Option<nat>): Outcome
    requires pos <= |s| && |parts| <= 8 && (doubleColonPos.Some? ==> doubleColonPos.value <= |parts|)
    decreases |s| - pos
  {
    if pos >= |s| || |parts| == 8 then Finish(s, pos, parts, doubleColonPos)
    else if !HexAt(s, pos) then NotAnAddress
    else
      var e := pos + GroupLength(s, pos);
      var parts' := parts + [Value(s[pos..e])];
      if e >= |s| then ParseParts(s, e, parts', doubleColonPos)
      else if e + 1 == |s| then NotAnAddress
      else if s[e] == ':' then
        if s[e + 1] != ':' then ParseParts(s, e + 1, parts', doubleColonPos)
        else if doubleColonPos.Some? then NotAnAddress
        else ParseParts(s, e + 2, parts', Some(|parts'|))
      else if s[e] == '.' && |parts| <= 6 then DottedTail
      else NotAnAddress
  }

  const MAX_TEXT: nat := 45

  function Parse(s: string): Outcome
  {
    if s == [] || |s| > MAX_TEXT then NotAnAddress
    else if |s| >= 2 && s[0] == ':' && s[1] == ':' then ParseParts(s, 2, [], Some(0))
    else ParseParts(s, 0, [], None)
  }

  // ---------------------------------------------------------------- steps of the parser on a known text

  /** Behind a group that no hexadecimal digit follows, or four digits, the parser finds exactly the group. */
  lemma GroupIsFound(s: string, i: nat, g: string, rest: string)
    requires i <= |s| && IsGroup(g) && s[i..] == g + rest && (rest == [] || !IsHex(rest[0]))
    ensures HexAt(s, i) && GroupLength(s, i) == |g| && s[i..i + |g|] == g && s[i + |g|..] == rest
  {
    assert forall k :: 0 <= k < |s| - i ==> s[i..][k] == s[i + k];
    assert s[i..i + |g|] == s[i..][..|g|] == g;
    assert s[i + |g|..] == s[i..][|g|..] == rest;
  }

  lemma StepEnd(s: string, pos: nat, parts: seq<Group>, k: Option<nat>, g: string)
    requires pos <= |s| && |parts| < 8 && (k.Some? ==> k.value <= |parts|) && IsGroup(g) && s[pos..] == g
    ensures ParseParts(s, pos, parts, k) == Finish(s, |s|, parts + [Value(g)], k)
  {
    hide HexValue;
    assert g + [] == g;
    GroupIsFound(s, pos, g, []);
  }

  lemma StepColon(s: string, pos: nat, parts: seq<Group>, k: Option<nat>, g: string, rest: string)
    requires pos <= |s| && |parts| < 8 && (k.Some? ==> k.value <= |parts|) && IsGroup(g)
    requires s[pos..] == g + ([':'] + rest) && rest != [] && rest[0] != ':'
    ensures var next := pos + |g| + 1;
            next <= |s| && s[next..] == rest && ParseParts(s, pos, parts, k) == ParseParts(s, next, parts + [Value(g)], k)
  {
    hide HexValue, GroupLength;
    GroupIsFound(s, pos, g, [':'] + rest);
    var e := pos + |g|;
    assert s[e..][0] == s[e] && s[e..][1] == s[e + 1] && s[e..][1..] == s[e + 1..];
  }

  lemma StepDouble(s: string, pos: nat, parts: seq<Group>, g: string, rest: string)
    requires pos <= |s| && |parts| < 8 && IsGroup(g) && s[pos..] == g + ([':', ':'] + rest)
    ensures var next, parts' := pos + |g| + 2, parts + [Value(g)];
            next <= |s| && s[next..] == rest && ParseParts(s, pos, parts, None) == ParseParts(s, next, parts', Some(|parts'|))
  {
    hide HexValue, GroupLength;
    GroupIsFound(s, pos, g, [':', ':'] + rest);
    var e := pos + |g|;
    assert s[e..][0] == s[e] && s[e..][1] == s[e + 1] && s[e..][2..] == s[e + 2..];
  }

  // ---------------------------------------------------------------- every hexadecimal text is understood

  lemma ValuesUnfold(gs: seq<string>)
    requires AllGroups(gs) && gs != []
    ensures IsGroup(gs[0]) && AllGroups(gs[1..]) && Values(gs) == [Value(gs[0])] + Values(gs[1..])
  {
    hide Value, IsGroup;
    assert IsGroup(gs[0]);
  }

  lemma JoinStarts(gs: seq<string>)
    requires AllGroups(gs) && gs != []
    ensures Join(gs) != [] && IsHex(Join(gs)[0]) && Join(gs)[0] != ':'
  {
    assert IsGroup(gs[0]);
    assert Join(gs)[0] == gs[0][0];
  }

  lemma JoinUnfolds(gs: seq<string>)
    requires AllGroups(gs) && gs != []
    ensures IsGroup(gs[0]) && AllGroups(gs[1..]) && Values(gs) == [Value(gs[0])] + Values(gs[1..])
    ensures if |gs| == 1 then Join(gs) == gs[0] && gs[1..] == []
            else Join(gs) == gs[0] + ([':'] + Join(gs[1..])) && Join(gs[1..]) != [] && Join(gs[1..])[0] != ':'
    ensures Join(gs) != [] && Join(gs)[0] != ':' && IsHex(Join(gs)[0])
  {
    hide *;
    ValuesUnfold(gs);
    JoinStarts(gs);
    JoinOnce(gs);
    if |gs| > 1 {
      JoinStarts(gs[1..]);
    }
  }

  lemma JoinOnce(gs: seq<string>)
    requires gs != []
    ensures if |gs| == 1 then Join(gs) == gs[0] && gs[1..] == [] else Join(gs) == gs[0] + ([':'] + Join(gs[1..]))
  {
  }

  lemma {:induction false} GroupsParse(s: string, pos: nat, parts: seq<Group>, k: Option<nat>, gs: seq<string>)
    requires pos <= |s| && |parts| + |gs| <= 8 && (k.Some? ==> k.value <= |parts|)
    requires AllGroups(gs) && s[pos..] == Join(gs)
    ensures ParseParts(s, pos, parts, k) == Finish(s, |s|, parts + Values(gs), k)
    decreases |gs|
  {
    hide *;
    if gs == [] {
      NothingParses(s, pos, parts, k);
      assert parts + Values(gs) == parts;
    } else {
      JoinUnfolds(gs);
      assert parts + Values(gs) == (parts + [Value(gs[0])]) + Values(gs[1..]);
      if |gs| == 1 {
        assert parts + Values(gs) == parts + [Value(gs[0])];
        StepEnd(s, pos, parts, k, gs[0]);
      } else {
        StepColon(s, pos, parts, k, gs[0], Join(gs[1..]));
        GroupsParse(s, pos + |gs[0]| + 1, parts + [Value(gs[0])], k, gs[1..]);
      }
    }
  }

  lemma NothingParses(s: string, pos: nat, parts: seq<Group>, k: Option<nat>)
    requires pos <= |s| && |parts| <= 8 && (k.Some? ==> k.value <= |parts|) && s[pos..] == Join([])
    ensures ParseParts(s, pos, parts, k) == Finish(s, |s|, parts, k)
  {
    assert pos == |s|;
  }

  lemma {:induction false} GroupsUpToDouble(s: string, pos: nat, parts: seq<Group>, pre: seq<string>, tail: string)
    requires pos <= |s| && |parts| + |pre| <= 8 && pre != [] && AllGroups(pre)
    requires s[pos..] == Join(pre) + ([':', ':'] + tail)
    ensures |tail| <= |s| && s[|s| - |tail|..] == tail
    ensures ParseParts(s, pos, parts, None) == ParseParts(s, |s| - |tail|, parts + Values(pre), Some(|parts| + |pre|))
    decreases |pre|
  {
    hide *;
    JoinUnfolds(pre);
    assert parts + Values(pre) == (parts + [Value(pre[0])]) + Values(pre[1..]);
    if |pre| == 1 {
      StepDouble(s, pos, parts, pre[0], tail);
      assert parts + Values(pre) == parts + [Value(pre[0])];
      assert |s| - |tail| == pos + |pre[0]| + 2;
    } else {
      var rest := Join(pre[1..]) + ([':', ':'] + tail);
      assert s[pos..] == pre[0] + ([':'] + rest);
      StepColon(s, pos, parts, None, pre[0], rest);
      GroupsUpToDouble(s, pos + |pre[0]| + 1, parts + [Value(pre[0])], pre[1..], tail);
    }
  }

  lemma {:induction false} JoinLength(gs: seq<string>)
    requires AllGroups(gs)
    ensures |Join(gs)| <= 5 * |gs|
    ensures gs != [] ==> |Join(gs)| < 5 * |gs|
  {
    if |gs| > 1 {
      JoinLength(gs[1..]);
      assert IsGroup(gs[0]);
    } else if |gs| == 1 {
      assert IsGroup(gs[0]);
    }
  }

  lemma FullParses(s: string, gs: seq<string>, address: seq<Group>)
    requires IsFull(s, gs, address)
    ensures Parse(s) == Parsed(address)
  {
    hide ParseParts, Join, AllGroups, Values;
    JoinLength(gs);
    JoinUnfolds(gs);
    assert s[0..] == s;
    GroupsParse(s, 0, [], None, gs);
    assert [] + Values(gs) == Values(gs);
  }

  lemma CompressedAtFront(s: string, post: seq<string>, address: seq<Group>)
    requires |post| <= 7 && AllGroups(post) && s == [':', ':'] + Join(post)
    requires address == Zeros(8 - |post|) + Values(post)
    ensures Parse(s) == Parsed(address)
  {
    hide ParseParts, Join, AllGroups, Values, Zeros, Finish;
    JoinLength(post);
    assert s[2..] == Join(post);
    GroupsParse(s, 2, [], Some(0), post);
    assert [] + Values(post) == Values(post);
    FinishSplits(s, [], Values(post));
  }

  lemma FinishSplits(s: string, pre: seq<Group>, post: seq<Group>)
    requires |pre| + |post| <= 7
    ensures Finish(s, |s|, pre + post, Some(|pre|)) == Parsed(pre + Zeros(8 - |pre| - |post|) + post)
  {
    assert (pre + post)[..|pre|] == pre && (pre + post)[|pre|..] == post;
  }

  lemma CompressedInside(s: string, pre: seq<string>, post: seq<string>, address: seq<Group>)
    requires IsCompressed(s, pre, post, address) && pre != []
    ensures Parse(s) == Parsed(address)
  {
    hide ParseParts, Join, AllGroups, Values, Zeros, Finish;
    var tail := Join(post);
    JoinLength(pre);
    JoinLength(post);
    JoinUnfolds(pre);
    assert s[0..] == Join(pre) + ([':', ':'] + tail);
    GroupsUpToDouble(s, 0, [], pre, tail);
    assert [] + Values(pre) == Values(pre);
    GroupsParse(s, |s| - |tail|, Values(pre), Some(|pre|), post);
    FinishSplits(s, Values(pre), Values(post));
  }

  lemma CompressedParses(s: string, pre: seq<string>, post: seq<string>, address: seq<Group>)
    requires IsCompressed(s, pre, post, address)
    ensures Parse(s) == Parsed(address)
  {
    hide Parse, Values, Zeros;
    if pre == [] {
      JoinOfNone();
      assert [] + [':', ':'] + Join(post) == [':', ':'] + Join(post);
      assert [] + Zeros(8 - |post|) + Values(post) == Zeros(8 - |post|) + Values(post);
      CompressedAtFront(s, post, address);
    } else {
      CompressedInside(s, pre, post, address);
    }
  }

  lemma JoinOfNone()
    ensures Join([]) == [] && AllGroups([]) && Values([]) == []
  {
  }

  // ---------------------------------------------------------------- nothing else is accepted

  /** The group the parser takes at `pos`. */
  function GroupAt(s: string, pos: nat): (g: string)
    requires HexAt(s, pos)
    ensures IsGroup(g) && pos + |g| <= |s| && s[pos..] == g + s[pos + |g|..]
  {
    s[pos..pos + GroupLength(s, pos)]
  }

  /** A step of a parse that succeeds ends the text, passes one colon, or passes two. */
  lemma StepInverse(s: string, pos: nat, parts: seq<Group>, k: Option<nat>)
    requires pos < |s| && |parts| <= 8 && (k.Some? ==> k.value <= |parts|) && ParseParts(s, pos, parts, k).Parsed?
    ensures |parts| < 8 && HexAt(s, pos)
    ensures var g, r := GroupAt(s, pos), ParseParts(s, pos, parts, k);
            var e, parts' := pos + |g|, parts + [Value(g)];
            || (e == |s| && r == Finish(s, e, parts', k))
            || (e + 1 < |s| && s[e] == ':' && s[e + 1] != ':' && r == ParseParts(s, e + 1, parts', k))
            || (e + 1 < |s| && s[e] == ':' && s[e + 1] == ':' && k.None? && r == ParseParts(s, e + 2, parts', Some(|parts'|)))
  {
    hide HexValue, GroupLength;
  }

  lemma JoinMore(g: string, gs: seq<string>)
    requires IsGroup(g) && AllGroups(gs)
    ensures AllGroups([g] + gs) && Values([g] + gs) == [Value(g)] + Values(gs)
    ensures Join([g] + gs) == if gs == [] then g else g + ([':'] + Join(gs))
  {
    hide Value, Join, AllGroups, Values;
    MoreGroups(g, gs);
    ValuesUnfold([g] + gs);
    JoinOnce([g] + gs);
    assert ([g] + gs)[1..] == gs;
  }

  lemma MoreGroups(g: string, gs: seq<string>)
    requires IsGroup(g) && AllGroups(gs)
    ensures AllGroups([g] + gs)
  {
    hide IsGroup;
  }

  lemma ColonThen(s: string, e: nat)
    requires e + 1 < |s| && s[e] == ':'
    ensures s[e..] == [':'] + s[e + 1..] && s[e + 1..] != []
    ensures s[e + 1] == ':' ==> s[e..] == [':', ':'] + s[e + 2..]
  {
  }

  ghost predicate IsRest(s: string, pos: nat, parts: seq<Group>, k: nat, gs: seq<string>, address: seq<Group>)
    requires pos <= |s|
  {
    && AllGroups(gs) && s[pos..] == Join(gs) && |parts| + |gs| <= 7
    && var all := parts + Values(gs);
       k <= |all| && address == all[..k] + Zeros(8 - |all|) + all[k..]
  }

  lemma {:induction false} AfterDouble(s: string, pos: nat, parts: seq<Group>, k: nat) returns (gs: seq<string>)
    requires pos <= |s| && k <= |parts| <= 8 && ParseParts(s, pos, parts, Some(k)).Parsed?
    ensures IsRest(s, pos, parts, k, gs, ParseParts(s, pos, parts, Some(k)).address)
    decreases |s| - pos
  {
    hide *;
    if pos == |s| {
      gs := [];
      NothingRests(s, parts, k);
    } else {
      StepInverse(s, pos, parts, Some(k));
      var g := GroupAt(s, pos);
      var e, parts' := pos + |g|, parts + [Value(g)];
      if e == |s| {
        gs := [g];
        LastRests(s, pos, parts, k, g);
      } else {
        ColonThen(s, e);
        var gs' := AfterDouble(s, e + 1, parts', k);
        gs := [g] + gs';
        MoreRests(s, pos, parts, k, g, gs', ParseParts(s, pos, parts, Some(k)).address);
      }
    }
  }

  lemma NothingRests(s: string, parts: seq<Group>, k: nat)
    requires k <= |parts| <= 8 && ParseParts(s, |s|, parts, Some(k)).Parsed?
    ensures IsRest(s, |s|, parts, k, [], ParseParts(s, |s|, parts, Some(k)).address)
  {
    hide ParseParts, Finish, Join, AllGroups, Values, Zeros;
    JoinOfNone();
    NothingParses(s, |s|, parts, Some(k));
    FinishedParts(s, parts, Some(k));
    assert parts + [] == parts;
  }

  lemma FinishedParts(s: string, parts: seq<Group>, k: Option<nat>)
    requires (k.Some? ==> k.value <= |parts|) && |parts| <= 8 && Finish(s, |s|, parts, k).Parsed?
    ensures k.None? ==> |parts| == 8 && Finish(s, |s|, parts, k).address == parts
    ensures k.Some? ==> |parts| < 8
    ensures k.Some? ==> Finish(s, |s|, parts, k).address == parts[..k.value] + Zeros(8 - |parts|) + parts[k.value..]
  {
  }

  lemma LastRests(s: string, pos: nat, parts: seq<Group>, k: nat, g: string)
    requires pos <= |s| && IsGroup(g) && k <= |parts| < 8 && s[pos..] == g + s[|s|..]
    requires Finish(s, |s|, parts + [Value(g)], Some(k)).Parsed?
    ensures IsRest(s, pos, parts, k, [g], Finish(s, |s|, parts + [Value(g)], Some(k)).address)
  {
    hide Value, Finish, Join, Values, AllGroups, IsGroup, Zeros;
    JoinOfNone();
    JoinMore(g, []);
    FinishedParts(s, parts + [Value(g)], Some(k));
    assert [g] + [] == [g];
    assert [Value(g)] + [] == [Value(g)];
    assert g + s[|s|..] == g;
  }

  lemma MoreRests(s: string, pos: nat, parts: seq<Group>, k: nat, g: string, gs: seq<string>, address: seq<Group>)
    requires IsGroup(g) && pos + |g| + 1 < |s| && s[pos..] == g + s[pos + |g|..]
    requires s[pos + |g|..] == [':'] + s[pos + |g| + 1..] && s[pos + |g| + 1..] != []
    requires IsRest(s, pos + |g| + 1, parts + [Value(g)], k, gs, address)
    ensures IsRest(s, pos, parts, k, [g] + gs, address)
  {
    hide Value, Join, Values, AllGroups, IsGroup, Zeros;
    JoinMore(g, gs);
    if gs == [] {
      JoinOfNone();
    }
    Reassociate(parts, [Value(g)], Values(gs));
  }

  /** What a successful parse has found, before any double colon: all eight groups, or a double colon. */
  ghost predicate IsWhole(s: string, pos: nat, parts: seq<Group>, pre: seq<string>, post: seq<string>,
                          compressed: bool, address: seq<Group>)
    requires pos <= |s|
  {
    && AllGroups(pre) && AllGroups(post)
    && if compressed then
         && pre != [] && s[pos..] == Join(pre) + ([':', ':'] + Join(post)) && |parts| + |pre| + |post| <= 7
         && address == (parts + Values(pre)) + Zeros(8 - |parts| - |pre| - |post|) + Values(post)
       else s[pos..] == Join(pre) && |parts| + |pre| == 8 && address == parts + Values(pre)
  }

  lemma {:induction false} BeforeDouble(s: string, pos: nat, parts: seq<Group>)
    returns (pre: seq<string>, post: seq<string>, compressed: bool)
    requires pos <= |s| && |parts| <= 8 && ParseParts(s, pos, parts, None).Parsed?
    ensures IsWhole(s, pos, parts, pre, post, compressed, ParseParts(s, pos, parts, None).address)
    decreases |s| - pos
  {
    hide *;
    var address := ParseParts(s, pos, parts, None).address;
    if pos == |s| {
      pre, post, compressed := [], [], false;
      NothingIsWhole(s, parts);
    } else {
      StepInverse(s, pos, parts, None);
      var g := GroupAt(s, pos);
      var e, parts' := pos + |g|, parts + [Value(g)];
      if e == |s| {
        pre, post, compressed := [g], [], false;
        LastIsWhole(s, pos, parts, g);
      } else {
        ColonThen(s, e);
        if s[e + 1] == ':' {
          post := AfterDouble(s, e + 2, parts', |parts'|);
          pre, compressed := [g], true;
          DoubleIsWhole(s, pos, parts, g, post, address);
        } else {
          var pre';
          pre', post, compressed := BeforeDouble(s, e + 1, parts');
          pre := [g] + pre';
          MoreIsWhole(s, pos, parts, g, pre', post, compressed, address);
        }
      }
    }
  }

  lemma NothingIsWhole(s: string, parts: seq<Group>)
    requires |parts| <= 8 && ParseParts(s, |s|, parts, None).Parsed?
    ensures IsWhole(s, |s|, parts, [], [], false, ParseParts(s, |s|, parts, None).address)
  {
    hide ParseParts, Finish, Join, AllGroups, Values, Zeros;
    JoinOfNone();
    NothingParses(s, |s|, parts, None);
    FinishedParts(s, parts, None);
    assert parts + [] == parts;
  }

  lemma LastIsWhole(s: string, pos: nat, parts: seq<Group>, g: string)
    requires pos <= |s| && IsGroup(g) && |parts| < 8 && s[pos..] == g + s[|s|..]
    requires Finish(s, |s|, parts + [Value(g)], None).Parsed?
    ensures IsWhole(s, pos, parts, [g], [], false, Finish(s, |s|, parts + [Value(g)], None).address)
  {
    hide Value, Finish, Join, Values, AllGroups, IsGroup, Zeros;
    JoinOfNone();
    JoinMore(g, []);
    FinishedParts(s, parts + [Value(g)], None);
    assert [g] + [] == [g];
    assert [Value(g)] + [] == [Value(g)];
    assert g + s[|s|..] == g;
  }

  lemma DoubleIsWhole(s: string, pos: nat, parts: seq<Group>, g: string, post: seq<string>, address: seq<Group>)
    requires IsGroup(g) && pos + |g| + 1 < |s| && s[pos..] == g + s[pos + |g|..]
    requires s[pos + |g|..] == [':', ':'] + s[pos + |g| + 2..]
    requires IsRest(s, pos + |g| + 2, parts + [Value(g)], |parts| + 1, post, address)
    ensures IsWhole(s, pos, parts, [g], post, true, address)
  {
    hide Value, Join, AllGroups, IsGroup, Zeros;
    JoinOfNone();
    JoinMore(g, []);
    assert [g] + [] == [g];
    var front := parts + [Value(g)];
    var all := front + Values(post);
    assert all[..|front|] == front && all[|front|..] == Values(post);
    assert parts + Values([g]) == front;
  }

  lemma MoreIsWhole(s: string, pos: nat, parts: seq<Group>, g: string, pre: seq<string>, post: seq<string>,
                    compressed: bool, address: seq<Group>)
    requires IsGroup(g) && pos + |g| + 1 < |s| && s[pos..] == g + s[pos + |g|..]
    requires s[pos + |g|..] == [':'] + s[pos + |g| + 1..] && s[pos + |g| + 1..] != []
    requires IsWhole(s, pos + |g| + 1, parts + [Value(g)], pre, post, compressed, address)
    ensures IsWhole(s, pos, parts, [g] + pre, post, compressed, address)
  {
    hide Value, Join, Values, AllGroups, IsGroup, Zeros;
    JoinMore(g, pre);
    if pre == [] {
      JoinOfNone();
    }
    Reassociate(parts, [Value(g)], Values(pre));
    if compressed {
      var tail := [':', ':'] + Join(post);
      Reassociate([':'], Join(pre), tail);
      Reassociate(g, [':'] + Join(pre), tail);
    }
  }

  lemma Reassociate<T>(a: seq<T>, b: seq<T>, c: seq<T>)
    ensures (a + b) + c == a + (b + c)
  {
  }

  lemma AcceptedTextsDenote(s: string, address: seq<Group>)
    requires Parse(s) == Parsed(address)
    ensures Denotes(s, address)
  {
    hide ParseParts, Join, AllGroups, Values, Zeros;
    if |s| >= 2 && s[0] == ':' && s[1] == ':' {
      var post := AfterDouble(s, 2, [], 0);
      JoinOfNone();
      assert s == [':', ':'] + s[2..];
      assert Join([]) + [':', ':'] + Join(post) == [':', ':'] + Join(post);
      ZeroFront(Values(post), 8 - |post|);
      assert IsCompressed(s, [], post, address);
    } else {
      var pre, post, compressed := BeforeDouble(s, 0, []);
      assert s[0..] == s;
      assert [] + Values(pre) == Values(pre);
      if compressed {
        assert Join(pre) + [':', ':'] + Join(post) == Join(pre) + ([':', ':'] + Join(post));
        assert IsCompressed(s, pre, post, address);
      } else {
        assert IsFull(s, pre, address);
      }
    }
  }

  lemma ZeroFront(values: seq<Group>, n: nat)
    ensures [] + values == values && values[..0] == [] && values[0..] == values
    ensures [] + Zeros(n) + values == Zeros(n) + values
  {
  }

  /** The parser finds an address in exactly the texts that denote one, and finds that address. */
  lemma ParserIsExact(s: string, address: seq<Group>)
    ensures Parse(s) == Parsed(address) <==> Denotes(s, address)
  {
    hide Parse, IsFull, IsCompressed;
    if Parse(s) == Parsed(address) {
      AcceptedTextsDenote(s, address);
    }
    if Denotes(s, address) {
      if gs: seq<string> :| IsFull(s, gs, address) {
        FullParses(s, gs, address);
      } else {
        var pre: seq<string>, post: seq<string> :| IsCompressed(s, pre, post, address);
        CompressedParses(s, pre, post, address);
      }
    }
  }

  // ---------------------------------------------------------------- the run of zeros to leave out

  /** Groups `x`, ..., `y - 1` are all zero. */
  ghost predicate IsZeroRun(groups: seq<Group>, x: nat, y: nat)
  {
    x <= y <= |groups| && forall i :: x <= i < y ==> groups[i] == 0
  }

  /** How many zeros there are just before index `n`. */
  function ZerosBefore(groups: seq<Group>, n: nat): (z: nat)
    requires n <= |groups|
    ensures z <= n && IsZeroRun(groups, n - z, n) && (z < n ==> groups[n - z - 1] != 0)
  {
    if n == 0 || groups[n - 1] != 0 then 0 else ZerosBefore(groups, n - 1) + 1
  }

  /** The first of the longest runs of zeros within the first `n` groups: its start and its length. */
  function LongestRun(groups: seq<Group>, n: nat): (r: (nat, nat))
    requires n <= |groups|
    ensures r.0 + r.1 <= n && IsZeroRun(groups, r.0, r.0 + r.1)
  {
    if n == 0 then (0, 0)
    else
      var (start, length) := LongestRun(groups, n - 1);
      var z := ZerosBefore(groups, n);
      if z > length then (n - z, z) else (start, length)
  }

  lemma {:induction false} RunEndsInZeros(groups: seq<Group>, x: nat, n: nat)
    requires IsZeroRun(groups, x, n)
    ensures n - x <= ZerosBefore(groups, n)
    decreases n
  {
    if x < n {
      RunEndsInZeros(groups, x, n - 1);
    }
  }

  /** No run of zeros is longer, and none as long starts earlier. */
  lemma {:induction false} LongestRunIsFirst(groups: seq<Group>, n: nat, x: nat, y: nat)
    requires n <= |groups| && IsZeroRun(groups, x, y) && y <= n
    ensures var (start, length) := LongestRun(groups, n);
            y - x <= length && (y - x == length && length > 0 ==> start <= x)
    decreases n
  {
    if n > 0 {
      var z := ZerosBefore(groups, n);
      if y < n {
        LongestRunIsFirst(groups, n - 1, x, y);
      } else {
        RunEndsInZeros(groups, x, n);
        if z > 0 {
          LongestRunIsFirst(groups, n - 1, n - z, n - 1);
        }
      }
    }
  }

  /** The two nested loops of the printer. */
  method FindLongestRun(groups: seq<Group>) returns (start: nat, length: nat)
    requires |groups| == 8
    ensures (start, length) == LongestRun(groups, 8)
  {
    hide LongestRun, ZerosBefore;
    start, length := 0, 0;
    var i: nat := 0;
    NoRunYet(groups);
    while i < 8
      invariant i <= 8 && (start, length) == LongestRun(groups, i)
      invariant i < 8 && i > 0 && groups[i] == 0 ==> groups[i - 1] != 0
      decreases 8 - i
    {
      if groups[i] == 0 {
        var zeroRunStart := i;
        i := i + 1;
        while i < 8 && groups[i] == 0
          invariant zeroRunStart < i <= 8 && IsZeroRun(groups, zeroRunStart, i)
        {
          i := i + 1;
        }
        RunIsCounted(groups, zeroRunStart, i);
        var zeroRunLength := i - zeroRunStart;
        if zeroRunLength > length {
          start, length := zeroRunStart, zeroRunLength;
        }
      } else {
        NoRunEnds(groups, i);
        i := i + 1;
      }
    }
  }

  lemma NoRunYet(groups: seq<Group>)
    ensures LongestRun(groups, 0) == (0, 0)
  {
  }

  lemma NoRunEnds(groups: seq<Group>, i: nat)
    requires i < |groups| && groups[i] != 0
    ensures LongestRun(groups, i + 1) == LongestRun(groups, i)
  {
    assert ZerosBefore(groups, i + 1) == 0;
  }

  lemma {:induction false} RunHasZeros(groups: seq<Group>, start: nat, i: nat)
    requires IsZeroRun(groups, start, i) && (start > 0 ==> groups[start - 1] != 0)
    ensures ZerosBefore(groups, i) == i - start
    decreases i
  {
    if start < i {
      RunHasZeros(groups, start, i - 1);
    }
  }

  lemma {:induction false} RunIsCounted(groups: seq<Group>, start: nat, i: nat)
    requires IsZeroRun(groups, start, i) && (start > 0 ==> groups[start - 1] != 0)
    ensures LongestRun(groups, i)
            == if i - start > LongestRun(groups, start).1 then (start, i - start) else LongestRun(groups, start)
    decreases i
  {
    hide ZerosBefore;
    if start < i {
      RunHasZeros(groups, start, i);
      RunIsCounted(groups, start, i - 1);
    }
  }

  // ---------------------------------------------------------------- the printer

  function ToString(address: seq<Group>): string
    requires |address| == 8
  {
    var (start, length) := LongestRun(address, 8);
    if length >= 2 then Join(Texts(address[..start])) + [':', ':'] + Join(Texts(address[start + length..]))
    else Join(Texts(address))
  }

  /** What is printed denotes the address. */
  lemma PrintedDenotes(address: seq<Group>)
    requires |address| == 8
    ensures Denotes(ToString(address), address)
  {
    hide LongestRun, Join, AllGroups, Values, Texts;
    var (start, length) := LongestRun(address, 8);
    if length >= 2 {
      var pre, post := address[..start], address[start + length..];
      ValuesOfTexts(pre);
      ValuesOfTexts(post);
      assert address == pre + Zeros(length) + post;
      assert IsCompressed(ToString(address), Texts(pre), Texts(post), address);
    } else {
      ValuesOfTexts(address);
      assert IsFull(ToString(address), Texts(address), address);
    }
  }

  /** What the printer writes, the parser reads back. */
  lemma RoundTrip(address: seq<Group>)
    requires |address| == 8
    ensures Parse(ToString(address)) == Parsed(address)
  {
    PrintedDenotes(address);
    ParserIsExact(ToString(address), address);
  }

  predicate HasDouble(s: string)
  {
    exists i :: 0 <= i < |s| - 1 && s[i] == ':' == s[i + 1]
  }

  /** The text of groups alone has no double colon, and only the characters of the groups besides. */
  lemma {:induction false} JoinIsSingle(gs: seq<string>)
    requires AllGroups(gs)
    ensures !HasDouble(Join(gs))
    ensures AllLower(gs) ==> forall c :: c in Join(gs) ==> !('A' <= c <= 'F')
    decreases |gs|
  {
    hide Join, AllGroups, Value, Values;
    if gs == [] {
      NothingJoined();
    } else {
      var g, all := gs[0], Join(gs);
      JoinUnfolds(gs);
      assert forall i :: 0 <= i < |g| ==> g[i] != ':' && all[i] == g[i];
      if |gs| > 1 {
        JoinIsSingle(gs[1..]);
        var rest := Join(gs[1..]);
        assert forall i :: |g| < i < |all| ==> all[i] == rest[i - |g| - 1];
        assert forall c :: c in all ==> c in g || c == ':' || c in rest;
      }
    }
  }

  lemma NothingJoined()
    ensures Join([]) == []
  {
  }

  /** Section 4.3 of RFC 5952. */
  predicate AllLower(gs: seq<string>)
  {
    forall i, c :: 0 <= i < |gs| && c in gs[i] ==> !('A' <= c <= 'F')
  }

  /** Section 4.1 of RFC 5952. */
  predicate NoLeadingZeros(gs: seq<string>)
  {
    forall i :: 0 <= i < |gs| && |gs[i]| > 1 ==> gs[i][0] != '0'
  }

  lemma TextsArePlain(values: seq<Group>)
    ensures AllGroups(Texts(values)) && AllLower(Texts(values)) && NoLeadingZeros(Texts(values))
  {
    hide HexText;
    ValuesOfTexts(values);
  }

  predicate HasZeroPair(address: seq<Group>)
    requires |address| == 8
  {
    exists i :: 0 <= i < 7 && address[i] == 0 == address[i + 1]
  }

  /** Sections 4.2.2 and 4.2.3 of RFC 5952, of the printed text: it has a double colon iff two neighbouring
      groups are zero; and section 4.3: it has no upper-case digit. */
  lemma DoubleColonIsCanonical(address: seq<Group>)
    requires |address| == 8
    ensures HasDouble(ToString(address)) <==> HasZeroPair(address)
    ensures forall c :: c in ToString(address) ==> !('A' <= c <= 'F')
  {
    hide LongestRun, Join, AllGroups, AllLower, NoLeadingZeros, Texts;
    var (start, length) := LongestRun(address, 8);
    var s := ToString(address);
    NeighboursAreARun(address);
    if length >= 2 {
      var pre, post := Texts(address[..start]), Texts(address[start + length..]);
      TextsArePlain(address[..start]);
      TextsArePlain(address[start + length..]);
      JoinIsSingle(pre);
      JoinIsSingle(post);
      assert s[|Join(pre)|] == ':' == s[|Join(pre)| + 1];
      assert forall c :: c in s ==> c in Join(pre) || c == ':' || c in Join(post);
    } else {
      TextsArePlain(address);
      JoinIsSingle(Texts(address));
    }
  }

  /** A full text with nothing to shorten. */
  ghost predicate IsPlainFull(s: string, gs: seq<string>, address: seq<Group>)
  {
    IsFull(s, gs, address) && AllLower(gs) && NoLeadingZeros(gs) && !HasZeroPair(address)
  }

  /** A text whose double colon stands for at least two groups, which are the longest run of zeros, and the
      first of several. */
  ghost predicate IsPlainCompressed(s: string, pre: seq<string>, post: seq<string>, address: seq<Group>)
  {
    && IsCompressed(s, pre, post, address) && AllLower(pre + post) && NoLeadingZeros(pre + post)
    && |pre| + |post| <= 6
    && forall x: nat, y: nat :: IsZeroRun(address, x, y) ==>
         y - x <= 8 - |pre| - |post| && (y - x == 8 - |pre| - |post| ==> |pre| <= x)
  }

  /** What sections 4.1 to 4.3 of RFC 5952 ask of a text of an address. */
  ghost predicate IsRecommended(s: string, address: seq<Group>)
  {
    || (exists gs: seq<string> :: IsPlainFull(s, gs, address))
    || (exists pre: seq<string>, post: seq<string> :: IsPlainCompressed(s, pre, post, address))
  }

  /** There is exactly one text of an address that these sections allow, and it is the one printed. */
  lemma PrintedIsTheRecommended(s: string, address: seq<Group>)
    requires |address| == 8
    ensures IsRecommended(s, address) <==> s == ToString(address)
  {
    hide ToString, IsPlainFull, IsPlainCompressed;
    if IsRecommended(s, address) {
      if gs: seq<string> :| IsPlainFull(s, gs, address) {
        PlainFullIsPrinted(s, gs, address);
      } else {
        var pre: seq<string>, post: seq<string> :| IsPlainCompressed(s, pre, post, address);
        PlainCompressedIsPrinted(s, pre, post, address);
      }
    }
    PrintedIsPlain(address);
  }

  lemma PrintedIsPlain(address: seq<Group>)
    requires |address| == 8
    ensures IsRecommended(ToString(address), address)
  {
    hide LongestRun, Texts, IsPlainFull, IsPlainCompressed;
    var (start, length) := LongestRun(address, 8);
    NeighboursAreARun(address);
    if length >= 2 {
      CompressedIsPlain(address, start, length);
      assert IsPlainCompressed(ToString(address), Texts(address[..start]), Texts(address[start + length..]), address);
    } else {
      ValuesOfTexts(address);
      FullIsPlain(address);
      assert IsPlainFull(ToString(address), Texts(address), address);
    }
  }

  lemma FullIsPlain(address: seq<Group>)
    requires |address| == 8 && !HasZeroPair(address)
    ensures IsPlainFull(Join(Texts(address)), Texts(address), address)
  {
    hide Join, AllGroups, Values, Texts, AllLower, NoLeadingZeros, HasZeroPair;
    ValuesOfTexts(address);
    TextsArePlain(address);
  }

  lemma CompressedIsPlain(address: seq<Group>, start: nat, length: nat)
    requires |address| == 8 && (start, length) == LongestRun(address, 8) && length >= 2
    ensures var pre, post := Texts(address[..start]), Texts(address[start + length..]);
            IsPlainCompressed(Join(pre) + [':', ':'] + Join(post), pre, post, address)
  {
    hide LongestRun, Join, AllGroups, Values, Texts, AllLower, NoLeadingZeros;
    var pre, post := address[..start], address[start + length..];
    ValuesOfTexts(pre);
    ValuesOfTexts(post);
    TextsArePlain(pre + post);
    assert Texts(pre + post) == Texts(pre) + Texts(post);
    assert address == pre + Zeros(length) + post;
    LongestIsFirst(address);
  }

  lemma LongestIsFirst(address: seq<Group>)
    requires |address| == 8
    ensures var (start, length) := LongestRun(address, 8);
            forall x: nat, y: nat :: IsZeroRun(address, x, y) ==> y - x <= length && (y - x == length > 0 ==> start <= x)
  {
    hide LongestRun;
    forall x: nat, y: nat | IsZeroRun(address, x, y)
      ensures var (start, length) := LongestRun(address, 8);
              y - x <= length && (y - x == length > 0 ==> start <= x)
    {
      LongestRunIsFirst(address, 8, x, y);
    }
  }

  lemma PlainFullIsPrinted(s: string, gs: seq<string>, address: seq<Group>)
    requires IsPlainFull(s, gs, address)
    ensures s == ToString(address)
  {
    hide LongestRun, Join, AllGroups, Values, Texts, AllLower, NoLeadingZeros;
    NeighboursAreARun(address);
    PlainTexts(gs);
  }

  lemma PlainCompressedIsPrinted(s: string, pre: seq<string>, post: seq<string>, address: seq<Group>)
    requires IsPlainCompressed(s, pre, post, address) && |address| == 8
    ensures s == ToString(address)
  {
    hide LongestRun, Join, AllGroups, Values, Texts, AllLower, NoLeadingZeros;
    var (start, length) := LongestRun(address, 8);
    var n := 8 - |pre| - |post|;
    assert IsZeroRun(address, |pre|, |pre| + n);
    LongestIsFirst(address);
    assert IsZeroRun(address, start, start + length);
    assert length == n && start == |pre|;
    PlainParts(pre, post);
    assert address[..start] == Values(pre) && address[start + length..] == Values(post);
  }

  lemma PlainParts(pre: seq<string>, post: seq<string>)
    requires AllGroups(pre) && AllGroups(post) && AllLower(pre + post) && NoLeadingZeros(pre + post)
    ensures pre == Texts(Values(pre)) && post == Texts(Values(post))
  {
    hide Values, Texts;
    var all := pre + post;
    assert forall i :: 0 <= i < |pre| ==> pre[i] == all[i];
    assert forall i :: 0 <= i < |post| ==> post[i] == all[|pre| + i];
    PlainTexts(pre);
    PlainTexts(post);
  }

  /** Groups in lower case and without leading zeros are the printed ones of their values. */
  lemma PlainTexts(gs: seq<string>)
    requires AllGroups(gs) && AllLower(gs) && NoLeadingZeros(gs)
    ensures gs == Texts(Values(gs))
  {
    hide HexText, HexValue;
    forall i | 0 <= i < |gs|
      ensures gs[i] == HexText(Value(gs[i]))
    {
      assert IsGroup(gs[i]);
      HexTextOfValue(gs[i]);
    }
  }

  lemma {:induction false} HexTextOfValue(g: string)
    requires g != [] && AllHex(g) && (forall c :: c in g ==> !('A' <= c <= 'F')) && (|g| > 1 ==> g[0] != '0')
    ensures HexText(HexValue(g)) == g
    decreases |g|
  {
    hide HexText, HexDigit, HexChar;
    var n := |g| - 1;
    var h, c := g[..n], g[n];
    assert c in g;
    LowerDigit(c);
    HexTextOnce(HexValue(g));
    if n == 0 {
      assert HexValue(h) == 0;
    } else {
      assert h[0] == g[0] && forall x :: x in h ==> x in g;
      FirstDigitCounts(h);
      HexTextOfValue(h);
      var d := HexDigit(c).value;
      assert HexValue(g) == HexValue(h) * 16 + d;
      assert HexValue(g) / 16 == HexValue(h) && HexValue(g) % 16 == d;
    }
  }

  lemma LowerDigit(c: char)
    requires IsHex(c) && !('A' <= c <= 'F')
    ensures HexChar(HexDigit(c).value) == c
  {
  }

  lemma {:induction false} FirstDigitCounts(g: string)
    requires g != [] && AllHex(g) && g[0] != '0'
    ensures HexValue(g) > 0
    decreases |g|
  {
    if |g| > 1 {
      FirstDigitCounts(g[..|g| - 1]);
    } else {
      assert IsHex(g[0]);
    }
  }

  lemma NeighboursAreARun(address: seq<Group>)
    requires |address| == 8
    ensures LongestRun(address, 8).1 >= 2 <==> HasZeroPair(address)
  {
    hide LongestRun;
    var (start, length) := LongestRun(address, 8);
    if i :| 0 <= i < 7 && address[i] == 0 == address[i + 1] {
      LongestRunIsFirst(address, 8, i, i + 2);
    }
    if length >= 2 {
      assert address[start] == 0 == address[start + 1];
    }
  }

  const BUFFER_SIZE: nat := 40

  /** `*c++ = ch`. */
  method AppendChar(buffer: array<char>, c: nat, ch: char) returns (end: nat)
    requires c < buffer.Length
    modifies buffer
    ensures end == c + 1 && buffer[..end] == old(buffer[..c]) + [ch]
  {
    buffer[c] := ch;
    end := c + 1;
  }

  /** `appendPart`: the digits of the two bytes of a group that are not leading zeros. */
  method AppendPart(buffer: array<char>, c: nat, highByte: nat, lowByte: nat) returns (end: nat)
    requires highByte < 256 && lowByte < 256 && c + 4 <= buffer.Length
    modifies buffer
    ensures c < end <= c + 4 && buffer[..end] == old(buffer[..c]) + HexText(highByte * 256 + lowByte)
  {
    hide HexText, HexChar, HexDigit;
    BytesOfGroup(highByte, lowByte);
    GroupTextFits(highByte * 256 + lowByte);
    end := c;
    if highByte > 0 || lowByte > 15 {
      if highByte > 0 {
        if highByte > 15 {
          end := AppendChar(buffer, end, HexChar(highByte / 16));
        }
        end := AppendChar(buffer, end, HexChar(highByte % 16));
      }
      end := AppendChar(buffer, end, HexChar(lowByte / 16));
    }
    end := AppendChar(buffer, end, HexChar(lowByte % 16));
  }

  lemma BytesOfGroup(highByte: nat, lowByte: nat)
    requires highByte < 256 && lowByte < 256
    ensures var v := highByte * 256 + lowByte;
            && v / 4096 == highByte / 16 && v / 256 % 16 == highByte % 16 && v / 256 == highByte
            && v % 256 / 16 == lowByte / 16 && v % 16 == lowByte % 16 && v < 0x1_0000
            && (v < 16 <==> highByte == 0 && lowByte <= 15) && (v < 256 <==> highByte == 0)
            && (v < 4096 <==> highByte <= 15)
  {
  }

  lemma {:induction false} JoinMoreText(values: seq<Group>, v: Group)
    ensures Join(Texts(values + [v]))
            == if values == [] then HexText(v) else Join(Texts(values)) + ([':'] + HexText(v))
  {
    hide HexText;
    var gs, g := Texts(values), HexText(v);
    assert Texts(values + [v]) == gs + [g];
    JoinAtEnd(gs, g);
  }

  lemma {:induction false} JoinAtEnd(gs: seq<string>, g: string)
    ensures Join(gs + [g]) == if gs == [] then g else Join(gs) + ([':'] + g)
  {
    hide Join;
    JoinOnce([g]);
    if gs == [] {
      assert gs + [g] == [g];
    } else {
      JoinOnce(gs + [g]);
      JoinOnce(gs);
      assert (gs + [g])[1..] == gs[1..] + [g];
      JoinAtEnd(gs[1..], g);
    }
  }

  /** Writes groups `lo` to `hi - 1` with colons between them: the loops of the printer, which differ only in
      whether a colon comes before or after a group. */
  method AppendParts(buffer: array<char>, c: nat, address: seq<Group>, lo: nat, hi: nat) returns (end: nat)
    requires lo <= hi <= |address| == 8 && c + 5 * (hi - lo) <= buffer.Length
    modifies buffer
    ensures c <= end <= c + 5 * (hi - lo) && (lo < hi ==> end < c + 5 * (hi - lo))
    ensures buffer[..end] == old(buffer[..c]) + Join(Texts(address[lo..hi]))
  {
    hide Join, Texts, HexText;
    var i := lo;
    end := c;
    ghost var front := buffer[..c];
    JoinOfNoTexts();
    assert address[lo..lo] == [];
    while i < hi
      invariant lo <= i <= hi && c <= end <= c + 5 * (i - lo) && (lo < i ==> end < c + 5 * (i - lo))
      invariant buffer[..end] == front + Join(Texts(address[lo..i]))
    {
      JoinMoreText(address[lo..i], address[i]);
      assert address[lo..i + 1] == address[lo..i] + [address[i]];
      Reassociate(front, Join(Texts(address[lo..i])), [':'] + HexText(address[i]));
      end := AppendNext(buffer, end, address[i], i == lo);
      i := i + 1;
    }
  }

  method AppendNext(buffer: array<char>, c: nat, v: Group, first: bool) returns (end: nat)
    requires c + 5 <= buffer.Length
    modifies buffer
    ensures c < end <= c + (if first then 4 else 5)
    ensures buffer[..end] == old(buffer[..c]) + (if first then HexText(v) else [':'] + HexText(v))
  {
    hide HexText;
    ghost var front := buffer[..c];
    end := c;
    if !first {
      end := AppendChar(buffer, end, ':');
    }
    end := AppendPart(buffer, end, v / 256, v % 256);
    Reassociate(front, [':'], HexText(v));
  }

  lemma JoinOfNoTexts()
    ensures Join(Texts([])) == []
  {
  }

  /** The printer never writes beyond its buffer of 40 characters. */
  method Print(address: seq<Group>) returns (s: string)
    requires |address| == 8
    ensures s == ToString(address)
  {
    hide *;
    var buffer := new char[BUFFER_SIZE];
    var start, length := FindLongestRun(address);
    var c;
    BufferSuffices();
    LongestRunFits(address);
    if length >= 2 {
      c := PrintCompressed(buffer, address, start, length);
    } else {
      c := AppendParts(buffer, 0, address, 0, 8);
      assert address[0..8] == address;
      assert buffer[..0] + Join(Texts(address)) == Join(Texts(address));
    }
    s := buffer[..c];
    PrintedIs(address, start, length);
  }

  lemma BufferSuffices()
    ensures BUFFER_SIZE == 40
  {
  }

  lemma LongestRunFits(address: seq<Group>)
    requires |address| == 8
    ensures LongestRun(address, 8).0 + LongestRun(address, 8).1 <= 8
  {
  }

  lemma PrintedIs(address: seq<Group>, start: nat, length: nat)
    requires |address| == 8 && (start, length) == LongestRun(address, 8)
    ensures start + length <= 8
    ensures ToString(address) == if length >= 2 then Join(Texts(address[..start])) + [':', ':'] + Join(Texts(address[start + length..]))
                                 else Join(Texts(address))
  {
  }

  method PrintCompressed(buffer: array<char>, address: seq<Group>, start: nat, length: nat) returns (c: nat)
    requires |address| == 8 && start + length <= 8 && length >= 2 && buffer.Length == 40
    modifies buffer
    ensures c <= buffer.Length
    ensures buffer[..c] == Join(Texts(address[..start])) + [':', ':'] + Join(Texts(address[start + length..]))
  {
    hide *;
    ghost var pre, post := Join(Texts(address[..start])), Join(Texts(address[start + length..]));
    assert address[0..start] == address[..start] && address[start + length..8] == address[start + length..];
    c := AppendParts(buffer, 0, address, 0, start);
    assert buffer[..c] == pre;
    c := AppendChar(buffer, c, ':');
    c := AppendChar(buffer, c, ':');
    assert buffer[..c] == pre + [':', ':'];
    c := AppendParts(buffer, c, address, start + length, 8);
  }

  // ---------------------------------------------------------------- the loops of the parser

  /** The digits of one group, and what is behind them. */
  method ParseGroup(s: string, start: nat) returns (pos: nat, partValue: Group, ok: bool)
    requires start < |s|
    ensures ok <==> HexAt(s, start)
    ensures ok ==> pos == start + GroupLength(s, start) && partValue == Value(s[start..pos])
  {
    pos, partValue, ok := start, 0, HexDigit(s[start]).Some?;
    if !ok {
      return;
    }
    var digits := [HexDigit(s[pos]).value];
    pos := pos + 1;
    assert s[start..pos][..0] == [];
    while |digits| < 4 && pos < |s| && HexDigit(s[pos]).Some?
      invariant start < pos <= |s| && 1 <= |digits| <= 4 && pos == start + |digits| && AllHex(s[start..pos])
      invariant forall i :: 0 <= i < |digits| ==> HexDigit(s[start + i]) == Some(digits[i])
      decreases 4 - |digits|
    {
      digits := digits + [HexDigit(s[pos]).value];
      assert s[start..pos + 1] == s[start..pos] + [s[pos]];
      pos := pos + 1;
    }
    GroupLengthIs(s, start, |digits|);
    partValue := ValueOfDigits(s[start..pos], digits);
  }

  lemma GroupLengthIs(s: string, i: nat, n: nat)
    requires 1 <= n <= 4 && i + n <= |s| && AllHex(s[i..i + n]) && (n < 4 ==> !HexAt(s, i + n))
    ensures HexAt(s, i) && GroupLength(s, i) == n
  {
    assert forall k :: i <= k < i + n ==> s[k] == s[i..i + n][k - i];
  }

  method ValueOfDigits(g: string, digits: seq<nat>) returns (partValue: Group)
    requires IsGroup(g) && |digits| == |g| && forall i :: 0 <= i < |g| ==> HexDigit(g[i]) == Some(digits[i])
    ensures partValue == Value(g)
  {
    var v: nat := digits[0];
    var i := 1;
    assert g[..1][..0] == [];
    while i < |digits|
      invariant 1 <= i <= |digits| && AllHex(g[..i]) && v == HexValue(g[..i])
    {
      assert g[..i + 1][..i] == g[..i];
      v := v * 16 + digits[i];
      i := i + 1;
    }
    assert g[..i] == g;
    GroupValueFits(g);
    partValue := v;
  }

  method FromString(s: string) returns (r: Outcome)
    ensures r == Parse(s)
  {
    hide ParseParts, Finish;
    if s == [] || |s| > MAX_TEXT {
      return NotAnAddress;
    }
    if |s| >= 2 && s[0] == ':' && s[1] == ':' {
      r := ParseLoop(s, 2, Some(0));
    } else {
      r := ParseLoop(s, 0, None);
    }
  }

  method ParseLoop(s: string, start: nat, initial: Option<nat>) returns (r: Outcome)
    requires start <= |s| && (initial.None? || initial == Some(0))
    ensures r == ParseParts(s, start, [], initial)
  {
    hide Value, GroupLength, Finish;
    var pos, parts, doubleColonPos := start, [], initial;
    while pos < |s| && |parts| < 8
      invariant 0 <= pos <= |s| && |parts| <= 8 && (doubleColonPos.Some? ==> doubleColonPos.value <= |parts|)
      invariant ParseParts(s, pos, parts, doubleColonPos) == ParseParts(s, start, [], initial)
      decreases |s| - pos
    {
      var e, partValue, ok := ParseGroup(s, pos);
      if !ok {
        return NotAnAddress;
      }
      var doubleColonPos' := doubleColonPos;
      if e < |s| {
        if e + 1 == |s| {
          return NotAnAddress;
        }
        if s[e] == ':' {
          e := e + 1;
          if s[e] == ':' {
            if doubleColonPos.Some? {
              return NotAnAddress;
            }
            doubleColonPos' := Some(|parts| + 1);
            e := e + 1;
          }
        } else if s[e] == '.' {
          if |parts| > 6 {
            return NotAnAddress;
          }
          return DottedTail;
        } else {
          return NotAnAddress;
        }
      }
      pos, parts, doubleColonPos := e, parts + [partValue], doubleColonPos';
    }
    r := FinishInPlace(s, pos, parts, doubleColonPos);
  }

  /** Moving the groups behind the double colon down to the end, and filling the gap, in the one array. */
  method FinishInPlace(s: string, pos: nat, parts: seq<Group>, doubleColonPos: Option<nat>) returns (r: Outcome)
    requires |parts| <= 8 && (doubleColonPos.Some? ==> doubleColonPos.value <= |parts|)
    ensures r == Finish(s, pos, parts, doubleColonPos)
  {
    if pos < |s| {
      return NotAnAddress;
    }
    if |parts| < 8 {
      if doubleColonPos.None? {
        return NotAnAddress;
      }
      var filled := FillGap(parts, doubleColonPos.value);
      return Parsed(filled);
    } else if doubleColonPos.Some? {
      return NotAnAddress;
    }
    return Parsed(parts);
  }

  method FillGap(parts: seq<Group>, preCount: nat) returns (r: seq<Group>)
    requires preCount <= |parts| < 8
    ensures r == parts[..preCount] + Zeros(8 - |parts|) + parts[preCount..]
  {
    hide Zeros;
    var filled := new Group[8](i requires 0 <= i < 8 => if i < |parts| then parts[i] else 0);
    var postCount := |parts| - preCount;
    var zeroCount := 8 - preCount - postCount;
    var i := 0;
    while i < postCount
      invariant 0 <= i <= postCount
      invariant forall k :: 0 <= k < 8 - i && k < |parts| ==> filled[k] == parts[k]
      invariant forall k :: 8 - i <= k < 8 ==> filled[k] == parts[k - zeroCount]
    {
      filled[7 - i] := filled[7 - zeroCount - i];
      i := i + 1;
    }
    i := 0;
    while i < zeroCount
      invariant 0 <= i <= zeroCount
      invariant forall k :: 0 <= k < preCount ==> filled[k] == parts[k]
      invariant forall k :: preCount <= k < preCount + i ==> filled[k] == 0
      invariant forall k :: preCount + zeroCount <= k < 8 ==> filled[k] == parts[k - zeroCount]
    {
      filled[preCount + i] := 0;
      i := i + 1;
    }
    r := filled[..];
    GapFilled(r, parts, preCount);
  }

  lemma GapFilled(groups: seq<Group>, parts: seq<Group>, preCount: nat)
    requires |groups| == 8 && preCount <= |parts| < 8
    requires forall k :: 0 <= k < preCount ==> groups[k] == parts[k]
    requires forall k :: preCount <= k < preCount + 8 - |parts| ==> groups[k] == 0
    requires forall k :: preCount + 8 - |parts| <= k < 8 ==> groups[k] == parts[k - (8 - |parts|)]
    ensures groups == parts[..preCount] + Zeros(8 - |parts|) + parts[preCount..]
  {
  }
}
