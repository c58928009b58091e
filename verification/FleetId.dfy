/** The fleet's names: a global id for every entity, the legacy machine tag, and
    the bare local id both contain. */
module FleetId {
  import opened Basics

  datatype Id = Id(home: string, kind: string, local: string)

  const SCHEME := "wa:"
  const LEGACY_PREFIX := "M~"
  const KINDS: set<string> := {"chat", "turn", "subagent", "process", "wait", "fork", "forkrun", "peer"}

  // ----- Strings -----

  const SPACES: set<char> := {' ', '\t', '\n', '\r', '\U{0B}', '\U{0C}', '\U{85}', '\U{A0}', '\U{1680}', '\U{2028}',
      '\U{2029}',
                               '\U{202F}', '\U{205F}', '\U{3000}', '\U{2000}', '\U{2001}', '\U{2002}', '\U{2003}',
                                   '\U{2004}',
                               '\U{2005}', '\U{2006}', '\U{2007}', '\U{2008}', '\U{2009}', '\U{200A}'}

  predicate Space(c: char) {
    c in SPACES
  }

  /** Neither end is a space. */
  predicate Trimmed(s: string) {
    s == "" || (!Space(s[0]) && !Space(s[|s| - 1]))
  }

  function Trim(s: string): (t: string)
    ensures Trimmed(t) && |t| <= |s| && (Trimmed(s) ==> t == s)
  {
    if s == "" then ""
    else if Space(s[0]) then Trim(s[1..])
    else if Space(s[|s| - 1]) then Trim(s[..|s| - 1])
    else s
  }

  function IndexOf(s: string, c: char): (i: nat)
    ensures i <= |s| && (i < |s| ==> s[i] == c) && c !in s[..i]
  {
    if s == "" then 0
    else if s[0] == c then 0
    else
      assert s[..1 + IndexOf(s[1..], c)] == [s[0]] + s[1..][..IndexOf(s[1..], c)];
      1 + IndexOf(s[1..], c)
  }

  /** Text joined at a separator its first part does not hold is cut there. */
  lemma JoinedIsCut(a: string, c: char, b: string)
    requires c !in a
    ensures var s := a + [c] + b; IndexOf(s, c) == |a| && s[..|a|] == a && s[|a| + 1..] == b
  {
    var s := a + [c] + b;
    assert s[..|a|] == a && s[|a|] == c;
    assert forall k :: 0 <= k < |a| ==> s[k] == a[k];
    FirstIndex(s, c, |a|);
  }

  lemma FirstIndex(s: string, c: char, n: nat)
    requires n < |s| && s[n] == c && forall k :: 0 <= k < n ==> s[k] != c
    ensures IndexOf(s, c) == n
  {
    if n > 0 {
      FirstIndex(s[1..], c, n - 1);
    }
  }

  lemma SplitAt(s: string, c: char, i: nat)
    requires i < |s| && s[i] == c
    ensures s == s[..i] + [c] + s[i + 1..]
  {
  }

  lemma CutJoins(s: string, c: char)
    requires IndexOf(s, c) < |s|
    ensures s == s[..IndexOf(s, c)] + [c] + s[IndexOf(s, c) + 1..]
  {
    SplitAt(s, c, IndexOf(s, c));
  }

  // ----- Global ids -----

  predicate WellFormed(id: Id) {
    && id.home != "" && id.local != "" && id.kind in KINDS
    && '/' !in id.home && '~' !in id.home
    && ' ' !in id.home && '\t' !in id.home && '\r' !in id.home && '\n' !in id.home
  }

  function Format(id: Id): string {
    if WellFormed(id) then SCHEME + id.home + "/" + id.kind + "/" + id.local else ""
  }

  function Legacy(id: Id): string {
    if WellFormed(id) then LEGACY_PREFIX + id.home + "~" + id.local else ""
  }

  datatype Parsed = NotGlobal | Malformed | Parsed(id: Id)

  function ParseRest(rest: string): Parsed {
    var i := IndexOf(rest, '/');
    if i == |rest| then Malformed
    else
      var j := IndexOf(rest[i + 1..], '/');
      if j == |rest[i + 1..]| then Malformed
      else
        var id := Id(rest[..i], rest[i + 1..][..j], rest[i + 1..][j + 1..]);
        if WellFormed(id) then Parsed(id) else Malformed
  }

  function Parse(value: string): Parsed {
    var v := Trim(value);
    if !(SCHEME <= v) then NotGlobal else ParseRest(v[|SCHEME|..])
  }

  lemma KindsHaveNoSlash(kind: string)
    requires kind in KINDS
    ensures '/' !in kind
  {
  }

  function Body(id: Id): string {
    id.home + ['/'] + (id.kind + ['/'] + id.local)
  }

  lemma FormatIsBody(id: Id)
    requires WellFormed(id)
    ensures Format(id) == SCHEME + Body(id) && |Body(id)| > 0
    ensures Format(id)[0] == 'w' && Format(id)[|Format(id)| - 1] == id.local[|id.local| - 1]
  {
    assert SCHEME + id.home + "/" + id.kind + "/" + id.local
        == SCHEME + (id.home + ['/'] + (id.kind + ['/'] + id.local));
  }

  lemma BodyParses(id: Id)
    requires WellFormed(id)
    ensures ParseRest(Body(id)) == Parsed(id)
  {
    KindsHaveNoSlash(id.kind);
    JoinedIsCut(id.home, '/', id.kind + ['/'] + id.local);
    JoinedIsCut(id.kind, '/', id.local);
  }

  lemma ParsedIsBody(rest: string)
    requires ParseRest(rest).Parsed?
    ensures Body(ParseRest(rest).id) == rest && WellFormed(ParseRest(rest).id)
  {
    CutJoins(rest, '/');
    CutJoins(rest[IndexOf(rest, '/') + 1..], '/');
  }

  /** A name reads back as itself, slashes in its local part included, unless
      its local part ends in space. */
  lemma FormatParses(id: Id)
    requires WellFormed(id) && !Space(id.local[|id.local| - 1])
    ensures Parse(Format(id)) == Parsed(id)
  {
    FormatIsBody(id);
    assert Trim(Format(id)) == Format(id);
    assert Format(id)[|SCHEME|..] == Body(id);
    BodyParses(id);
  }

  lemma BodyEnds(id: Id)
    requires WellFormed(id)
    ensures |Body(id)| > 0 && Body(id)[|Body(id)| - 1] == id.local[|id.local| - 1]
  {
  }

  /** And what parses is a name, written again as the text it was read from. */
  lemma ParseFormats(value: string)
    requires Parse(value).Parsed?
    ensures WellFormed(Parse(value).id) && Format(Parse(value).id) == Trim(value)
    ensures !Space(Parse(value).id.local[|Parse(value).id.local| - 1])
  {
    var v, id := Trim(value), Parse(value).id;
    var rest := v[|SCHEME|..];
    ParsedIsBody(rest);
    FormatIsBody(id);
    assert v == SCHEME + rest;
    BodyEnds(id);
    assert v[|v| - 1] == rest[|rest| - 1];
  }

  // ----- Any shape -----

  datatype Address = Empty | Bare(local: string) | Homed(home: string, local: string) | Bad

  predicate IsGlobal(value: string) {
    SCHEME <= Trim(value)
  }

  predicate IsLegacy(value: string) {
    LEGACY_PREFIX <= Trim(value)
  }

  predicate IsHomed(value: string) {
    IsGlobal(value) || IsLegacy(value)
  }

  predicate NamesHome(value: string) {
    IsLegacy(value) || Parse(value).Parsed?
  }

  function SplitLegacy(rest: string): Address {
    var cut := IndexOf(rest, '~');
    if cut == |rest| || cut == 0 || cut == |rest| - 1 then Bad else Homed(rest[..cut], rest[cut + 1..])
  }

  function Split(value: string): Address {
    var v := Trim(value);
    if v == "" then Empty
    else if SCHEME <= v then
      (match Parse(v)
       case Parsed(id) => Homed(id.home, id.local)
       case NotGlobal => Bad
       case Malformed => Bad)
    else if LEGACY_PREFIX <= v then SplitLegacy(v[|LEGACY_PREFIX|..])
    else Bare(v)
  }

  /** Splitting a homed value gives a home without the tag's separator, and a
      local part that does not end in space. */
  lemma SplitShape(value: string)
    requires Split(value).Homed?
    ensures var a := Split(value);
            a.home != "" && '~' !in a.home && a.local != "" && !Space(a.local[|a.local| - 1])
    ensures IsHomed(value)
  {
    var v := Trim(value);
    if SCHEME <= v {
      ParseFormats(v);
    } else {
      var rest := v[|LEGACY_PREFIX|..];
      var cut := IndexOf(rest, '~');
      assert rest[cut + 1..][|rest| - cut - 2] == v[|v| - 1];
    }
  }

  function Tag(home: string, local: string): string {
    LEGACY_PREFIX + home + "~" + local
  }

  /** The legacy tag reads back as the home and local part written in it. */
  lemma TagSplits(home: string, local: string)
    requires home != "" && '~' !in home && local != "" && !Space(local[|local| - 1])
    ensures Trimmed(Tag(home, local)) && Split(Tag(home, local)) == Homed(home, local) && IsLegacy(Tag(home, local))
  {
    var t := Tag(home, local);
    assert t[0] == 'M' && t[|t| - 1] == local[|local| - 1];
    assert t[|LEGACY_PREFIX|..] == home + ['~'] + local;
    JoinedIsCut(home, '~', local);
    assert !(SCHEME <= t) by { assert t[0] != SCHEME[0]; }
  }

  lemma GlobalSplits(id: Id)
    requires WellFormed(id) && !Space(id.local[|id.local| - 1])
    ensures Split(Format(id)) == Homed(id.home, id.local)
  {
    FormatParses(id);
    FormatIsBody(id);
    var text := Format(id);
    assert Trim(text) == text;
    assert SCHEME <= text;
  }

  /** Both spellings of a name split to the same home and local part. */
  lemma SpellingsAgree(id: Id)
    requires WellFormed(id) && !Space(id.local[|id.local| - 1])
    ensures Split(Format(id)) == Homed(id.home, id.local) && Split(Legacy(id)) == Homed(id.home, id.local)
  {
    GlobalSplits(id);
    TagSplits(id.home, id.local);
  }

  // ----- What each text is -----

  /** A name's home holds no separator and no white space, and its kind is one of
      eight. */
  lemma WellFormedIff(id: Id)
    ensures WellFormed(id) <==>
              && id.home != "" && id.local != ""
              && (forall c :: c in id.home ==> c !in {'/', '~', ' ', '\t', '\r', '\n'})
              && id.kind in {"chat", "turn", "subagent", "process", "wait", "fork", "forkrun", "peer"}
  {
  }

  /** A text without the scheme is no global id; one with it parses to exactly the
      name it spells. */
  lemma ParseIff(value: string, id: Id)
    ensures Parse(value) == NotGlobal <==> !("wa:" <= Trim(value))
    ensures Parse(value) == Parsed(id) <==>
              WellFormed(id) && Trim(value) == "wa:" + id.home + "/" + id.kind + "/" + id.local
  {
    if Parse(value) == Parsed(id) {
      ParseFormats(value);
    }
    if WellFormed(id) && Trim(value) == Format(id) {
      SpelledParses(value, id);
    }
  }

  lemma SpelledParses(value: string, id: Id)
    requires WellFormed(id) && Trim(value) == Format(id)
    ensures Parse(value) == Parsed(id)
  {
    FormatIsBody(id);
    assert Trim(value)[|SCHEME|..] == Body(id);
    BodyParses(id);
  }

  /** A legacy tag is a home without its separator, the separator, and the rest. */
  lemma TagIff(v: string, home: string, local: string)
    requires LEGACY_PREFIX <= v
    ensures SplitLegacy(v[|LEGACY_PREFIX|..]) == Homed(home, local) <==>
              home != "" && local != "" && '~' !in home && v == "M~" + home + "~" + local
    ensures SplitLegacy(v[|LEGACY_PREFIX|..]).Homed? || SplitLegacy(v[|LEGACY_PREFIX|..]).Bad?
  {
    var rest := v[|LEGACY_PREFIX|..];
    if SplitLegacy(rest) == Homed(home, local) {
      CutJoins(rest, '~');
      assert v == LEGACY_PREFIX + rest;
    }
    if home != "" && local != "" && '~' !in home && v == "M~" + home + "~" + local {
      assert rest == home + ['~'] + local;
      JoinedIsCut(home, '~', local);
    }
  }

  /** An address is empty, bare, or homed in one of two spellings, and malformed
      otherwise. */
  lemma SplitIff(value: string, home: string, local: string)
    ensures Split(value) == Empty <==> Trim(value) == ""
    ensures Split(value) == Bare(local) <==>
              local != "" && Trim(value) == local && !("wa:" <= local) && !("M~" <= local)
    ensures Split(value) == Homed(home, local) <==>
              || (exists kind :: Parse(value) == Parsed(Id(home, kind, local)))
              || (home != "" && local != "" && '~' !in home && Trim(value) == "M~" + home + "~" + local)
  {
    var v := Trim(value);
    assert Trim(v) == v;
    if SCHEME <= v {
      assert v[0] == 'w';
      assert Split(value) == Homed(home, local) <==> exists kind :: Parse(value) == Parsed(Id(home, kind, local)) by {
        if Parse(value).Parsed? {
          var id := Parse(value).id;
          assert Parse(value) == Parsed(Id(id.home, id.kind, id.local));
        }
      }
    } else if LEGACY_PREFIX <= v {
      TagIff(v, home, local);
    }
  }
}
