/** The folder that a path written out in a plan item leads to: the first run of two names or more joined by
    slashes, without its file. */
module GrowthSpelled {
  import opened GrowthOrder
  import opened GrowthTree
  import opened Text

  predicate NameChar(c: char) { 'A' <= c <= 'Z' || 'a' <= c <= 'z' || IsDigit(c) || c in "_.-" }

  // ---- what the pattern means ----

  ghost predicate AreNames(names: seq<string>) {
    forall i :: 0 <= i < |names| ==> names[i] != "" && forall c :: c in names[i] ==> NameChar(c)
  }

  /** Two names or more, joined by slashes, and perhaps one slash after the last. */
  ghost predicate Spells(s: string) {
    exists names: seq<string> :: |names| >= 2 && AreNames(names) && (s == Slashed(names) || s == Slashed(names) + "/")
  }

  // ---- finding it ----

  /** Where the name at i ends. */
  function NameEnd(text: string, i: nat): (e: nat)
    requires i <= |text|
    ensures i <= e <= |text|
    ensures forall k :: i <= k < e ==> NameChar(text[k])
    ensures e < |text| ==> !NameChar(text[e])
    decreases |text| - i
  {
    if i < |text| && NameChar(text[i]) then NameEnd(text, i + 1) else i
  }

  /** A slash at e, and another name after it. */
  predicate GoesOn(text: string, e: nat) { e + 1 < |text| && text[e] == '/' && NameChar(text[e + 1]) }

  predicate Starts(text: string, i: nat)
    requires i <= |text|
  {
    NameEnd(text, i) > i && GoesOn(text, NameEnd(text, i))
  }

  /** Where the names from i on end. */
  function NamesEnd(text: string, i: nat): (e: nat)
    requires i <= |text|
    ensures i <= e <= |text|
    decreases |text| - i
  {
    var e := NameEnd(text, i);
    if GoesOn(text, e) then NamesEnd(text, e + 1) else e
  }

  function NamesFrom(text: string, i: nat): (names: seq<string>)
    requires i <= |text|
    ensures names != [] && (Starts(text, i) ==> |names| >= 2)
    decreases |text| - i
  {
    var e := NameEnd(text, i);
    if GoesOn(text, e) then [text[i..e]] + NamesFrom(text, e + 1) else [text[i..e]]
  }

  /** The first place from i on where a path starts. */
  function FirstStart(text: string, i: nat): (r: Option<nat>)
    requires i <= |text|
    ensures r.Some? ==> i <= r.value <= |text| && Starts(text, r.value)
    ensures forall k :: i <= k < (if r.Some? then r.value else |text|) ==> !Starts(text, k)
    decreases |text| - i
  {
    if i == |text| then None else if Starts(text, i) then Some(i) else FirstStart(text, i + 1)
  }

  /** Where the path at i ends, the slash after it included. */
  function SpelledEnd(text: string, i: nat): (e: nat)
    requires i <= |text|
    ensures i <= e <= |text|
  {
    var e := NamesEnd(text, i);
    if e < |text| && text[e] == '/' then e + 1 else e
  }

  /** The folder spelled out, [] for none: a last name with a point in it is a file's. */
  function SpelledOut(text: string): Path {
    var at := FirstStart(text, 0);
    if at.None? then []
    else
      var names := NamesFrom(text, at.value);
      var last := names[|names| - 1];
      if '.' in last then names[..|names| - 1] else names
  }

  // ---- it is the first, and as long as can be ----

  /** Two pieces with a slash between, as the text has them. */
  lemma SlashBetween(text: string, i: nat, j: nat, a: string, b: string)
    requires i <= j <= |text| && text[i..j] == a + "/" + b
    ensures var e := i + |a|; e < j && text[i..e] == a && text[e] == '/' && text[e + 1..j] == b
  {
    var s := text[i..j];
    var e := i + |a|;
    assert s[..|a|] == a && s[|a|] == '/' && s[|a| + 1..] == b;
    assert text[i..e] == s[..|a|] && text[e + 1..j] == s[|a| + 1..];
  }

  lemma {:induction false} SlashedParts(names: seq<string>)
    requires names != []
    ensures Slashed(names) == if |names| == 1 then names[0] else names[0] + "/" + Slashed(names[1..])
  {
  }

  lemma {:induction false} NameStands(text: string, i: nat, name: string)
    requires i + |name| <= |text| && text[i..i + |name|] == name && forall c :: c in name ==> NameChar(c)
    ensures NameEnd(text, i) >= i + |name|
  {
    hide NameChar, NameEnd;
    forall l | i <= l < i + |name|
      ensures NameChar(text[l])
    {
      assert text[l] == text[i..i + |name|][l - i];
      assert name[l - i] in name;
    }
  }

  /** Names that stand at i, with a slash after the first, are a start, and the scan goes past them. */
  lemma {:induction false} ScanPasses(text: string, i: nat, names: seq<string>)
    requires names != [] && AreNames(names)
    requires i + |Slashed(names)| <= |text| && text[i..i + |Slashed(names)|] == Slashed(names)
    ensures NamesEnd(text, i) >= i + |Slashed(names)|
    ensures |names| >= 2 ==> Starts(text, i)
    decreases |names|
  {
    hide NameChar, Slashed, AreNames;
    FirstStands(text, i, names);
    if |names| >= 2 {
      ScanPasses(text, i + |names[0]| + 1, names[1..]);
    }
  }

  lemma {:induction false} FirstStands(text: string, i: nat, names: seq<string>)
    requires names != [] && AreNames(names)
    requires i + |Slashed(names)| <= |text| && text[i..i + |Slashed(names)|] == Slashed(names)
    ensures var e, rest := i + |names[0]|, names[1..];
            if |names| == 1 then NameEnd(text, i) >= e && Slashed(names) == names[0]
            else
              && names[0] != "" && AreNames(rest) && |Slashed(names)| == |names[0]| + 1 + |Slashed(rest)|
              && NameEnd(text, i) == e && GoesOn(text, e)
              && text[e + 1..e + 1 + |Slashed(rest)|] == Slashed(rest)
  {
    hide NameChar, Slashed, NameEnd, AreNames;
    SlashedParts(names);
    NamesParts(names);
    if |names| == 1 {
      NameStands(text, i, names[0]);
    } else {
      var j := i + |Slashed(names)|;
      SlashBetween(text, i, j, names[0], Slashed(names[1..]));
      NameStands(text, i, names[0]);
      SlashIsNoName();
      NextName(text, i + |names[0]| + 1, j, names[1..]);
    }
  }

  lemma {:induction false} NamesParts(names: seq<string>)
    requires names != [] && AreNames(names)
    ensures names[0] != "" && (forall c :: c in names[0] ==> NameChar(c)) && AreNames(names[1..])
  {
    hide NameChar;
  }

  lemma {:induction false} NextName(text: string, i: nat, j: nat, names: seq<string>)
    requires names != [] && AreNames(names) && i <= j <= |text| && text[i..j] == Slashed(names)
    ensures i < j && NameChar(text[i])
  {
    hide NameChar, Slashed;
    SlashedParts(names);
    assert names[0] != "" && names[0][0] in names[0];
    assert Slashed(names)[0] == names[0][0];
    assert text[i] == text[i..j][0];
  }

  lemma SlashIsNoName()
    ensures !NameChar('/')
  {
  }

  lemma JoinedBySlash(text: string, i: nat, e: nat, f: nat)
    requires i <= e < f <= |text| && text[e] == '/'
    ensures text[i..f] == text[i..e] + "/" + text[e + 1..f]
  {
  }

  lemma {:induction false} OneMoreName(name: string, rest: seq<string>)
    requires name != "" && (forall c :: c in name ==> NameChar(c)) && AreNames(rest)
    ensures AreNames([name] + rest)
    ensures Slashed([name] + rest) == if rest == [] then name else name + "/" + Slashed(rest)
  {
    hide NameChar, Slashed;
    SlashedParts([name] + rest);
    assert ([name] + rest)[1..] == rest;
  }

  lemma NamesAt(text: string, i: nat)
    requires i <= |text|
    ensures var e := NameEnd(text, i);
            if GoesOn(text, e) then NamesFrom(text, i) == [text[i..e]] + NamesFrom(text, e + 1)
              && NamesEnd(text, i) == NamesEnd(text, e + 1)
            else NamesFrom(text, i) == [text[i..e]] + [] && NamesEnd(text, i) == e
  {
    hide NameChar, GoesOn;
  }

  /** What the scan reads is names, and the text has them joined by slashes. */
  lemma {:induction false} NamesStand(text: string, i: nat)
    requires i < |text| && NameChar(text[i])
    ensures AreNames(NamesFrom(text, i)) && text[i..NamesEnd(text, i)] == Slashed(NamesFrom(text, i))
    decreases |text| - i
  {
    hide NameChar, Slashed, AreNames, NamesFrom, NamesEnd, NameEnd;
    var e := NameEnd(text, i);
    NamesAt(text, i);
    NameThere(text, i);
    NoNames();
    if GoesOn(text, e) {
      NamesStand(text, e + 1);
      OneMoreStands(text, i, e, NamesEnd(text, e + 1), NamesFrom(text, e + 1));
    } else {
      OneMoreName(text[i..e], []);
    }
  }

  lemma {:induction false} OneMoreStands(text: string, i: nat, e: nat, f: nat, rest: seq<string>)
    requires i < e < f <= |text| && text[e] == '/' && forall c :: c in text[i..e] ==> NameChar(c)
    requires rest != [] && AreNames(rest) && text[e + 1..f] == Slashed(rest)
    ensures AreNames([text[i..e]] + rest) && text[i..f] == Slashed([text[i..e]] + rest)
  {
    hide NameChar, Slashed, AreNames;
    OneMoreName(text[i..e], rest);
    JoinedBySlash(text, i, e, f);
  }

  lemma {:induction false} NameThere(text: string, i: nat)
    requires i < |text| && NameChar(text[i])
    ensures var name := text[i..NameEnd(text, i)]; name != "" && forall c :: c in name ==> NameChar(c)
  {
    hide NameChar;
  }

  lemma NoNames()
    ensures AreNames([])
  {
  }

  lemma FrontStands(text: string, i: nat, j: nat, t: string)
    requires i <= j <= |text| && t <= text[i..j]
    ensures i + |t| <= j && text[i..i + |t|] == t
  {
    assert text[i..j][..|t|] == text[i..i + |t|];
  }

  /** A path that stands at i makes i a start, and ends no later than the scan. */
  lemma SpelledNoLonger(text: string, i: nat, j: nat)
    requires i <= j <= |text| && Spells(text[i..j])
    ensures i < |text| && Starts(text, i) && j <= SpelledEnd(text, i)
  {
    hide Slashed, AreNames;
    var s := text[i..j];
    var names: seq<string> :| |names| >= 2 && AreNames(names) && (s == Slashed(names) || s == Slashed(names) + "/");
    var n := |Slashed(names)|;
    FrontStands(text, i, j, Slashed(names));
    ScanPasses(text, i, names);
    if s == Slashed(names) + "/" {
      assert text[i + n] == s[n] == '/';
    }
  }

  lemma {:induction false} SpelledThere(text: string, i: nat)
    requires i <= |text| && Starts(text, i)
    ensures var s, names := text[i..SpelledEnd(text, i)], NamesFrom(text, i);
            Spells(s) && (s == Slashed(names) || s == Slashed(names) + "/")
  {
    hide Slashed, AreNames, NamesFrom;
    NamesStand(text, i);
    var e := NamesEnd(text, i);
    if e < |text| && text[e] == '/' {
      assert text[i..e + 1] == text[i..e] + "/";
    }
    var names := NamesFrom(text, i);
    assert |names| >= 2;
  }

  /** The folder is that of the leftmost path in the text, taken as long as it goes: where one starts no
      other starts earlier or goes on further, and where none is found none stands. */
  lemma {:induction false} SpelledIsFirst(text: string)
    ensures var at := FirstStart(text, 0);
            && (at.None? ==> forall i, j :: 0 <= i <= j <= |text| ==> !Spells(text[i..j]))
            && (at.Some? ==>
                  var i := at.value; var e := SpelledEnd(text, i);
                  && Spells(text[i..e]) && (forall k, j :: 0 <= k < i && k <= j <= |text| ==> !Spells(text[k..j]))
                  && (forall j :: e < j <= |text| ==> !Spells(text[i..j]))
                  && (text[i..e] == Slashed(NamesFrom(text, i)) || text[i..e] == Slashed(NamesFrom(text, i)) + "/"))
  {
    hide Spells, Slashed, AreNames, NamesFrom, NamesEnd, NameEnd, Starts, SpelledEnd, FirstStart;
    var at := FirstStart(text, 0);
    forall i, j | 0 <= i <= j <= |text| && Spells(text[i..j])
      ensures at.Some? && at.value <= i && j <= SpelledEnd(text, i)
    {
      SpelledNoLonger(text, i, j);
    }
    if at.Some? {
      SpelledThere(text, at.value);
    }
  }

  /** The names spelled out hold no slash. */
  lemma SpelledIsClean(text: string)
    ensures Clean(SpelledOut(text))
  {
    hide NameChar, NamesFrom;
    var at := FirstStart(text, 0);
    if at.Some? {
      NamesStand(text, at.value);
      SlashIsNoName();
    }
  }
}
