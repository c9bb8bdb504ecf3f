/** Cutting a text at '|', ',' and ';' and joining what its pieces mean. */
module TagPieces {

  predicate Separator(c: char) { c == '|' || c == ',' || c == ';' }

  /** Characters before the first separator. */
  function PieceLength(s: string): (n: nat)
    ensures n <= |s|
    ensures forall i :: 0 <= i < n ==> !Separator(s[i])
    ensures n < |s| ==> Separator(s[n])
  {
    if s == "" || Separator(s[0]) then 0 else 1 + PieceLength(s[1..])
  }

  function Pieces(s: string): seq<string>
    decreases |s|
  {
    var n := PieceLength(s);
    if n < |s| then [s[..n]] + Pieces(s[n + 1..]) else [s]
  }

  function StripSpaces(s: string): string {
    if s != "" && s[0] == ' ' then StripSpaces(s[1..]) else s
  }

  /** The flags of all pieces, each read without its leading spaces. */
  function Union(pieces: seq<string>, flags: string -> set<nat>): set<nat> {
    if pieces == [] then {} else flags(StripSpaces(pieces[0])) + Union(pieces[1..], flags)
  }

  /** `n` characters without a separator, then the end or a separator. */
  predicate PieceEnds(s: string, n: nat) {
    && n <= |s|
    && (forall i :: 0 <= i < n ==> !Separator(s[i]))
    && (n < |s| ==> Separator(s[n]))
  }

  lemma {:induction false} PiecesAt(s: string, n: nat)
    requires PieceEnds(s, n)
    ensures PieceLength(s) == n
    ensures n < |s| ==> Pieces(s) == [s[..n]] + Pieces(s[n + 1..])
    ensures n == |s| ==> Pieces(s) == [s]
  {
  }

  lemma {:induction false} UnionAt(s: string, n: nat, flags: string -> set<nat>)
    requires PieceEnds(s, n)
    ensures n < |s| ==> Union(Pieces(s), flags) == flags(StripSpaces(s[..n])) + Union(Pieces(s[n + 1..]), flags)
    ensures n == |s| ==> Union(Pieces(s), flags) == flags(StripSpaces(s))
  {
    PiecesAt(s, n);
    assert Pieces(s)[1..] == if n < |s| then Pieces(s[n + 1..]) else [];
  }

  lemma {:induction false} SpaceEnds(s: string, n: nat)
    requires s != "" && s[0] == ' ' && PieceEnds(s[1..], n)
    ensures PieceEnds(s, n + 1) && s[..n + 1][1..] == s[1..][..n]
    ensures n + 1 < |s| ==> s[n + 2..] == s[1..][n + 1..]
  {
    assert forall i :: 0 < i <= n && i < |s| ==> s[i] == s[1..][i - 1];
    assert n + 1 < |s| ==> s[n + 1] == s[1..][n];
  }

  /** A leading separator or space contributes nothing. */
  lemma {:induction false} SkipOne(s: string, flags: string -> set<nat>)
    requires s != "" && (s[0] == ' ' || Separator(s[0])) && flags("") == {}
    ensures Union(Pieces(s), flags) == Union(Pieces(s[1..]), flags)
  {
    if Separator(s[0]) {
      UnionAt(s, 0, flags);
    } else {
      var n := PieceLength(s[1..]);
      SpaceEnds(s, n);
      UnionAt(s, n + 1, flags);
      UnionAt(s[1..], n, flags);
      assert s[..n + 1][0] == ' ';
      if n + 1 == |s| { assert s[..n + 1] == s && s[1..][..n] == s[1..]; }
    }
  }

  /** What follows the first piece may start at its separator. */
  lemma {:induction false} AfterPiece(s: string, flags: string -> set<nat>)
    requires flags("") == {}
    ensures var n := PieceLength(s);
            Union(Pieces(s), flags) == flags(StripSpaces(s[..n])) + Union(Pieces(s[n..]), flags)
  {
    var n := PieceLength(s);
    UnionAt(s, n, flags);
    if n < |s| {
      SkipOne(s[n..], flags);
      assert s[n..][1..] == s[n + 1..];
    } else {
      UnionAt("", 0, flags);
      assert s[..n] == s;
    }
  }

  lemma {:induction false} JoinedEnds(a: string, b: string, c: char, n: nat)
    requires PieceEnds(a, n) && c in "|,;"
    ensures PieceEnds(a + [c] + b, n) && (a + [c] + b)[..n] == a[..n]
    ensures n < |a| ==> (a + [c] + b)[n + 1..] == a[n + 1..] + [c] + b
    ensures n == |a| ==> (a + [c] + b)[n + 1..] == b
  {
    var s := a + [c] + b;
    assert s[|a|] == c && forall i :: 0 <= i < |a| ==> s[i] == a[i];
  }

  /** Two texts joined by a separator mean the union of what each means. */
  lemma {:induction false} UnionOfJoined(a: string, b: string, c: char, flags: string -> set<nat>)
    requires c in "|,;"
    ensures Union(Pieces(a + [c] + b), flags) == Union(Pieces(a), flags) + Union(Pieces(b), flags)
    decreases |a|
  {
    var n, s := PieceLength(a), a + [c] + b;
    JoinedEnds(a, b, c, n);
    UnionAt(s, n, flags);
    UnionAt(a, n, flags);
    if n < |a| {
      UnionOfJoined(a[n + 1..], b, c, flags);
    } else {
      assert a[..n] == a;
    }
  }

  method SkipSeparators(spec: string, from: nat, ghost flags: string -> set<nat>) returns (p: nat)
    requires from <= |spec| && flags("") == {}
    ensures from <= p <= |spec| && Union(Pieces(spec[p..]), flags) == Union(Pieces(spec[from..]), flags)
    ensures p < |spec| ==> spec[p] != ' ' && !Separator(spec[p])
  {
    p := from;
    while p < |spec| && (spec[p] == ' ' || Separator(spec[p]))
      invariant from <= p <= |spec|
      invariant Union(Pieces(spec[p..]), flags) == Union(Pieces(spec[from..]), flags)
    {
      assert spec[p..][1..] == spec[p + 1..];
      SkipOne(spec[p..], flags);
      p := p + 1;
    }
  }

  // ----- printing into a limited buffer -----

  function Join(names: seq<string>): string {
    if names == [] then "" else if |names| == 1 then names[0] else names[0] + "|" + Join(names[1..])
  }

  function Cut(s: string, n: nat): string {
    if |s| > n then s[..n] else s
  }

  /** Appends `token` to a text in a buffer of `size` characters, one of them for
      the terminator. */
  function AppendToken(text: string, size: nat, token: string, first: bool): string
    requires |text| < size
  {
    var bar := if !first && size - |text| > 1 then "|" else "";
    var remaining := size - |text + bar|;
    text + bar + (if |token| >= remaining then token[..remaining - 1] else token)
  }

  /** Appending to a text cut to the buffer is cutting the longer text. */
  lemma {:induction false} AppendIsCut(base: string, size: nat, token: string)
    requires size > 0
    ensures AppendToken(Cut(base, size - 1), size, token, false) == Cut(base + "|" + token, size - 1)
    ensures AppendToken("", size, token, true) == Cut(token, size - 1)
  {
    var text := Cut(base, size - 1);
    var bar := if size - |text| > 1 then "|" else "";
    assert bar == "|" ==> text == base;
  }

  lemma {:induction false} JoinOneMore(names: seq<string>, name: string)
    ensures Join(names + [name]) == if names == [] then name else Join(names) + "|" + name
  {
    if |names| > 1 {
      JoinOneMore(names[1..], name);
      assert (names + [name])[1..] == names[1..] + [name];
      assert names[0] + "|" + (Join(names[1..]) + "|" + name) == names[0] + "|" + Join(names[1..]) + "|" + name;
    }
  }

  /** Printing one more name after `names` have been printed. */
  lemma {:induction false} PrintOne(names: seq<string>, name: string, size: nat)
    requires size > 0
    ensures AppendToken(Cut(Join(names), size - 1), size, name, names == []) == Cut(Join(names + [name]), size - 1)
  {
    AppendIsCut(Join(names), size, name);
    JoinOneMore(names, name);
  }
}

/** Tag words as text: the printer into a buffer of limited size, and the parser. */
module TagText {
  import opened RecorderModel
  import opened TagPieces

  const SPIKE: Flags := {0}
  const ALIGN: Flags := {1}
  const LOW_HARM: Flags := {2}
  const TOKEN_SIZE: nat := 32

  // ----- printing -----

  /** The names of the defined flags in `tag`, in the order they are printed. */
  function Names(tag: Flags): seq<string> {
    (if 0 in tag then ["SPIKE"] else []) + (if 1 in tag then ["ALIGN"] else [])
    + (if 2 in tag then ["LOW_HARM"] else [])
  }

  /** The whole text, for a buffer that is large enough. */
  function FullText(tag: Flags): string {
    if tag == {} then "NONE" else Join(Names(tag))
  }

  method TagToString(tag: Flags, size: nat) returns (text: string)
    requires size > 0
    ensures text == Cut(FullText(tag), size - 1)
  {
    if tag == {} {
      return Cut("NONE", size - 1);
    }
    text := "";
    var first := true;
    ghost var names: seq<string> := [];
    if 0 in tag {
      PrintOne(names, "SPIKE", size);
      text, first, names := AppendToken(text, size, "SPIKE", first), false, names + ["SPIKE"];
    }
    if 1 in tag {
      PrintOne(names, "ALIGN", size);
      text, first, names := AppendToken(text, size, "ALIGN", first), false, names + ["ALIGN"];
    }
    if 2 in tag {
      PrintOne(names, "LOW_HARM", size);
      text, names := AppendToken(text, size, "LOW_HARM", first), names + ["LOW_HARM"];
    }
    assert names == Names(tag);
  }

  // ----- parsing -----

  function Upper(c: char): char {
    if 'a' <= c <= 'z' then ((c as int) - 32) as char else c
  }

  function UpperAll(s: string): string {
    seq(|s|, i requires 0 <= i < |s| => Upper(s[i]))
  }

  function TokenFlags(token: string): Flags {
    if token == "SPIKE" then SPIKE
    else if token == "ALIGN" then ALIGN
    else if token == "LOW_HARM" || token == "LOWHARM" then LOW_HARM
    else if token == "ALL" then SPIKE + ALIGN + LOW_HARM
    else {}
  }

  /** A piece is read in capitals and only as far as the token buffer goes. */
  function PieceFlags(piece: string): Flags {
    TokenFlags(Cut(UpperAll(piece), TOKEN_SIZE - 1))
  }

  /** The flags named anywhere in `s`. */
  function Mask(s: string): Flags {
    Union(Pieces(s), PieceFlags)
  }

  method ParseTagMask(spec: string) returns (mask: Flags)
    ensures mask == Mask(spec)
  {
    mask := {};
    var p := 0;
    hide Mask;
    assert spec[0..] == spec;
    while p < |spec|
      invariant 0 <= p <= |spec|
      invariant mask + Mask(spec[p..]) == Mask(spec)
    {
      var flags, q := ReadPiece(spec, p);
      mask := mask + flags;
      p := q;
    }
    assert spec[p..] == "";
    MaskOfNothing();
  }

  lemma {:induction false} MaskOfNothing()
    ensures Mask("") == {}
  {
    UnionAt("", 0, PieceFlags);
  }

  lemma {:induction false} MaskIsUnion(s: string)
    ensures Mask(s) == Union(Pieces(s), PieceFlags)
  {
  }

  /** Texts joined by a bar, a comma or a semicolon mean what both mean. */
  lemma {:induction false} MaskJoined(a: string, b: string, c: char)
    requires c in "|,;"
    ensures Mask(a + [c] + b) == Mask(a) + Mask(b)
  {
    hide PieceFlags, Pieces, Union;
    UnionOfJoined(a, b, c, PieceFlags);
  }

  /** What a single piece means: in whatever case it is written, one of five names, each
      for its flags, and anything else nothing. */
  lemma {:induction false} MaskOfPiece(s: string)
    requires forall i :: 0 <= i < |s| ==> s[i] !in "|,;"
    ensures var name := UpperAll(StripSpaces(s));
      && (0 in Mask(s) <==> name == "SPIKE" || name == "ALL")
      && (1 in Mask(s) <==> name == "ALIGN" || name == "ALL")
      && (2 in Mask(s) <==> name == "LOW_HARM" || name == "LOWHARM" || name == "ALL")
      && Mask(s) <= {0, 1, 2}
  {
    assert PieceEnds(s, |s|);
    UnionAt(s, |s|, PieceFlags);
    var name := UpperAll(StripSpaces(s));
    assert |name| > 31 ==> |name[..31]| == 31;
    hide UpperAll, StripSpaces;
  }

  lemma {:induction false} Capitals()
    ensures UpperAll("abcdefghijklmnopqrstuvwxyz") == "ABCDEFGHIJKLMNOPQRSTUVWXYZ"
    ensures forall c :: 'a' <= c <= 'z' || UpperAll([c]) == [c]
  {
  }

  /** The text of no flag and of all three. */
  lemma {:induction false} FullTexts()
    ensures FullText({}) == "NONE"
    ensures FullText({0, 1, 2}) == "SPIKE" + "|" + ("ALIGN" + "|" + "LOW_HARM")
  {
    var names := ["SPIKE", "ALIGN", "LOW_HARM"];
    assert Names({0, 1, 2}) == names;
    assert names[1..] == ["ALIGN", "LOW_HARM"] && names[1..][1..] == ["LOW_HARM"];
  }

  /** Skips separators and reads the piece after them, if there is one. */
  method ReadPiece(spec: string, from: nat) returns (flags: Flags, p: nat)
    requires from < |spec|
    ensures from < p <= |spec| && Mask(spec[from..]) == flags + Mask(spec[p..])
  {
    hide PieceFlags, TokenFlags, Pieces, Union, StripSpaces, PieceLength;
    NoPieceNoFlags();
    p := SkipSeparators(spec, from, PieceFlags);
    assert Mask(spec[p..]) == Mask(spec[from..]);
    hide Mask;
    if p == |spec| {
      return {}, p;
    }
    var token, q := ReadToken(spec, p);
    MaskAfterPiece(spec, p, q);
    flags, p := TokenFlags(token), q;
  }

  lemma {:induction false} MaskAfterPiece(spec: string, p: nat, q: nat)
    requires p <= q <= |spec| && q == p + PieceLength(spec[p..]) && StripSpaces(spec[p..q]) == spec[p..q]
    ensures Mask(spec[p..]) == PieceFlags(spec[p..q]) + Mask(spec[q..])
  {
    hide PieceFlags, TokenFlags, Pieces, Union, StripSpaces, PieceLength;
    NoPieceNoFlags();
    var s, n := spec[p..], q - p;
    assert s[n..] == spec[q..] && s[..n] == spec[p..q];
    MaskIsUnion(s);
    MaskIsUnion(s[n..]);
    hide Mask;
    AfterPiece(s, PieceFlags);
  }

  lemma {:induction false} NoPieceNoFlags()
    ensures PieceFlags("") == {}
  {
  }

  method ReadToken(spec: string, from: nat) returns (token: string, p: nat)
    requires from < |spec| && spec[from] != ' ' && !Separator(spec[from])
    ensures from < p == from + PieceLength(spec[from..]) && StripSpaces(spec[from..p]) == spec[from..p]
    ensures TokenFlags(token) == PieceFlags(spec[from..p])
  {
    token, p := ReadCharacters(spec, from);
    hide TokenFlags, StripSpaces, Cut, UpperAll, PieceLength;
    PieceHere(spec, from, p);
    NoLeadingSpace(spec[from..p]);
  }

  lemma {:induction false} PieceHere(spec: string, from: nat, p: nat)
    requires from < p <= |spec| && (forall i :: from <= i < p ==> !Separator(spec[i]))
    requires p < |spec| ==> Separator(spec[p])
    ensures p == from + PieceLength(spec[from..])
  {
    hide PieceLength;
    PiecesAt(spec[from..], p - from);
  }

  /** The loop, which drops what the token buffer cannot hold. */
  method ReadCharacters(spec: string, from: nat) returns (token: string, p: nat)
    requires from < |spec| && !Separator(spec[from])
    ensures from < p <= |spec| && (forall i :: from <= i < p ==> !Separator(spec[i]))
    ensures p < |spec| ==> Separator(spec[p])
    ensures token == Cut(UpperAll(spec[from..p]), TOKEN_SIZE - 1)
  {
    token, p := "", from;
    hide Upper, Separator;
    assert UpperAll(spec[from..from]) == "";
    while p < |spec| && !Separator(spec[p])
      invariant from <= p <= |spec|
      invariant forall i :: from <= i < p ==> !Separator(spec[i])
      invariant token == Cut(UpperAll(spec[from..p]), TOKEN_SIZE - 1)
    {
      assert spec[from..p + 1] == spec[from..p] + [spec[p]];
      CutGrows(spec[from..p], spec[p]);
      if |token| + 1 < TOKEN_SIZE {
        token := token + [Upper(spec[p])];
      }
      p := p + 1;
    }
  }

  lemma {:induction false} CutGrows(s: string, c: char)
    ensures var t := Cut(UpperAll(s), TOKEN_SIZE - 1);
      Cut(UpperAll(s + [c]), TOKEN_SIZE - 1) == if |t| + 1 < TOKEN_SIZE then t + [Upper(c)] else t
  {
    assert UpperAll(s + [c]) == UpperAll(s) + [Upper(c)];
  }

  lemma {:induction false} NoLeadingSpace(s: string)
    requires s != "" && s[0] != ' '
    ensures StripSpaces(s) == s
  {
  }

  // ----- the round trip -----

  predicate Name(s: string) {
    s == "SPIKE" || s == "ALIGN" || s == "LOW_HARM"
  }

  lemma {:induction false} PlainText(s: string)
    requires forall i :: 0 <= i < |s| ==> 'A' <= s[i] <= 'Z' || s[i] == '_'
    ensures UpperAll(s) == s && PieceEnds(s, |s|) && StripSpaces(s) == s
  {
  }

  /** A name parses to its flag; anything shorter parses to nothing. */
  lemma {:induction false} MaskOfName(name: string, n: nat)
    requires Name(name) && n <= |name|
    ensures Mask(name[..n]) == if n == |name| then TokenFlags(name) else {}
  {
    var s := name[..n];
    PlainText(s);
    UnionAt(s, n, PieceFlags);
    if n < |name| {
      assert n >= 4 ==> s[3] == name[3];
      assert n >= 3 ==> s[2] == name[2];
      assert n >= 1 ==> s[0] == name[0];
    } else {
      assert s == name;
    }
  }

  function FlagsOf(names: seq<string>): Flags {
    if names == [] then {} else TokenFlags(names[0]) + FlagsOf(names[1..])
  }

  lemma {:induction false} MaskOfJoin(names: seq<string>)
    requires names != [] && forall s :: s in names ==> Name(s)
    ensures Mask(Join(names)) == FlagsOf(names)
  {
    var a := names[0];
    MaskOfName(a, |a|);
    assert a[..|a|] == a;
    if |names| > 1 {
      MaskJoined(a, Join(names[1..]), '|');
      MaskOfJoin(names[1..]);
    }
  }

  /** Cutting a list of names short loses at least the last of them. */
  lemma {:induction false} MaskOfCut(names: seq<string>, n: nat) returns (kept: nat)
    requires forall s :: s in names ==> Name(s)
    requires n < |Join(names)|
    ensures kept < |names| && Mask(Join(names)[..n]) == FlagsOf(names[..kept])
  {
    JoinCut(names, n);
    hide Mask, TokenFlags, Name, Join, FlagsOf;
    if n <= |names[0]| {
      MaskOfName(names[0], n);
      FirstFlags(names, 0);
      kept := if n == |names[0]| then 1 else 0;
    } else {
      kept := MaskOfCut(names[1..], n - |names[0]| - 1);
      MaskOfLonger(names, n, kept);
      kept := kept + 1;
    }
  }

  /** The first name in full, the bar and a cut of the rest. */
  lemma {:induction false} MaskOfLonger(names: seq<string>, n: nat, kept: nat)
    requires names != [] && Name(names[0]) && |names[0]| < n < |Join(names)| && kept < |names| - 1
    requires n - |names[0]| - 1 < |Join(names[1..])|
    requires Mask(Join(names[1..])[..n - |names[0]| - 1]) == FlagsOf(names[1..][..kept])
    ensures Mask(Join(names)[..n]) == FlagsOf(names[..kept + 1])
  {
    JoinCut(names, n);
    hide Mask, TokenFlags, Name, Join, FlagsOf;
    var a := names[0];
    MaskJoined(a, Join(names[1..])[..n - |a| - 1], '|');
    MaskOfName(a, |a|);
    assert a[..|a|] == a;
    FirstFlags(names, kept);
  }

  /** A prefix of a joined text: part of the first name, or that name, the bar and a
      prefix of the rest. */
  lemma {:induction false} JoinCut(names: seq<string>, n: nat)
    requires n < |Join(names)|
    ensures names != []
    ensures n <= |names[0]| ==> Join(names)[..n] == names[0][..n]
    ensures n > |names[0]| ==> n - |names[0]| - 1 < |Join(names[1..])|
    ensures n > |names[0]| ==> Join(names)[..n] == names[0] + "|" + Join(names[1..])[..n - |names[0]| - 1]
  {
  }

  lemma {:induction false} FirstFlags(names: seq<string>, k: nat)
    requires k < |names|
    ensures FlagsOf(names[..k + 1]) == TokenFlags(names[0]) + FlagsOf(names[1..][..k])
    ensures FlagsOf(names[..0]) == {} && FlagsOf(names[1..][..0]) == {}
  {
    hide TokenFlags;
    assert names[..k + 1][1..] == names[1..][..k] && names[..k + 1][0] == names[0];
  }

  lemma {:induction false} FlagsOneMore(names: seq<string>, name: string)
    ensures FlagsOf(names + [name]) == FlagsOf(names) + TokenFlags(name)
  {
    if names == [] {
      assert [name][1..] == [] && names + [name] == [name];
    } else {
      FlagsOneMore(names[1..], name);
      assert (names + [name])[1..] == names[1..] + [name];
    }
  }

  /** A name's flag is lost unless the name is there. */
  lemma {:induction false} NamesFlags(tag: Flags)
    requires tag <= SPIKE + ALIGN + LOW_HARM
    ensures FlagsOf(Names(tag)) == tag
    ensures forall k: nat :: k < |Names(tag)| ==> FlagsOf(Names(tag)[..k]) != tag
  {
    var a: seq<string> := if 0 in tag then ["SPIKE"] else [];
    var b: seq<string> := if 1 in tag then a + ["ALIGN"] else a;
    assert FlagsOf(["SPIKE"]) == SPIKE by { assert ["SPIKE"][1..] == []; }
    FlagsOneMore(a, "ALIGN");
    FlagsOneMore(b, "LOW_HARM");
    var ns := Names(tag);
    assert ns == if 2 in tag then b + ["LOW_HARM"] else b;
    forall k: nat | k < |ns| ensures FlagsOf(ns[..k]) != tag {
      assert ns[..k] == b || ns[..k] == a || ns[..k] == [];
    }
  }

  /** Printing the three defined flags and parsing the text gives them back exactly
      when the text fits the buffer with its terminator. */
  lemma {:induction false} PrintParse(tag: Flags, size: nat)
    requires tag <= SPIKE + ALIGN + LOW_HARM && size > 0
    ensures Mask(Cut(FullText(tag), size - 1)) == tag <==> tag == {} || size > |FullText(tag)|
  {
    if tag == {} {
      MaskOfNone(size - 1);
    } else {
      NamesFlags(tag);
      if size > |FullText(tag)| {
        MaskOfJoin(Names(tag));
      } else {
        var kept := MaskOfCut(Names(tag), size - 1);
      }
    }
  }

  lemma {:induction false} MaskOfNone(n: nat)
    ensures Mask(Cut("NONE", n)) == {}
  {
    var s := Cut("NONE", n);
    PlainText(s);
    UnionAt(s, |s|, PieceFlags);
    assert s != "" ==> s[0] == 'N';
  }
}
