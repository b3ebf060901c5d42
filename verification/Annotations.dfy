/**
 The "topology" annotation of a scenario: a comma-separated list of topology names.
 Publishing adds a name to it and leaves the rest of the value byte for byte.
 */
module Annotations {

  // unicode.IsSpace, the white space that strings.TrimSpace removes and that splits a minimega command line.
  predicate IsSpace(c: char) {
    || c in {'\t', '\n', '\U{000B}', '\U{000C}', '\r', ' '}
    || c in {'\U{0085}', '\U{00A0}', '\U{1680}', '\U{2028}', '\U{2029}', '\U{202F}', '\U{205F}', '\U{3000}'}
    || '\U{2000}' <= c <= '\U{200A}'
  }

  // The comma-separated pieces of value. Like strings.Split, an empty value has one empty piece.
  function Pieces(value: string): (pieces: seq<string>)
    ensures pieces != []
  {
    if value == "" then
      [""]
    else
      var rest := Pieces(value[1..]);
      if value[0] == ',' then [""] + rest else [[value[0]] + rest[0]] + rest[1..]
  }

  function TrimLeft(s: string): string {
    if s != "" && IsSpace(s[0]) then TrimLeft(s[1..]) else s
  }

  function TrimRight(s: string): string {
    if s != "" && IsSpace(s[|s| - 1]) then TrimRight(s[..|s| - 1]) else s
  }

  function TrimSpace(s: string): string {
    TrimRight(TrimLeft(s))
  }

  predicate HasTopology(value: string, topology: string) {
    exists i :: 0 <= i < |Pieces(value)| && TrimSpace(Pieces(value)[i]) == topology
  }

  function AddTopology(value: string, topology: string): string {
    if HasTopology(value, topology) then value
    else if value == "" then topology
    else value + "," + topology
  }

  // A config name: not empty, and only characters of ^[a-zA-Z0-9_@.-]*$.
  predicate ValidName(name: string) {
    name != "" && forall i :: 0 <= i < |name| ==> NameChar(name[i])
  }

  predicate NameChar(c: char) {
    'a' <= c <= 'z' || 'A' <= c <= 'Z' || '0' <= c <= '9' || c in {'_', '@', '.', '-'}
  }

  lemma {:induction false} PiecesOfOne(s: string)
    requires ',' !in s
    ensures Pieces(s) == [s]
  {
    if s != "" {
      assert forall c :: c in s[1..] ==> c in s;
      PiecesOfOne(s[1..]);
      assert [s[0]] + s[1..] == s;
    }
  }

  lemma {:induction false} PiecesOfAppend(value: string, name: string)
    requires ',' !in name
    ensures Pieces(value + "," + name) == Pieces(value) + [name]
  {
    var whole := value + "," + name;
    if value == "" {
      assert whole == [','] + name;
      assert whole[1..] == name;
      PiecesOfOne(name);
    } else {
      assert whole[1..] == value[1..] + "," + name;
      PiecesOfAppend(value[1..], name);
    }
  }

  lemma TrimOfName(name: string)
    requires ValidName(name)
    ensures TrimSpace(name) == name && ',' !in name
  {
    assert NameChar(name[0]) && NameChar(name[|name| - 1]);
  }

  // Adding a valid topology name adds exactly that name and keeps the stored value as a prefix.
  lemma AddTopologyAddsOnlyIt(value: string, topology: string, other: string)
    requires ValidName(topology)
    requires other != ""
    ensures value <= AddTopology(value, topology)
    ensures HasTopology(AddTopology(value, topology), topology)
    ensures HasTopology(AddTopology(value, topology), other) <==> HasTopology(value, other) || other == topology
  {
    var added := AddTopology(value, topology);
    TrimOfName(topology);
    if !HasTopology(value, topology) {
      if value == "" {
        PiecesOfOne(topology);
        assert Pieces(added)[0] == topology;
        assert forall i :: 0 <= i < |Pieces(value)| ==> TrimSpace(Pieces(value)[i]) == "";
      } else {
        PiecesOfAppend(value, topology);
        var before := Pieces(value);
        assert Pieces(added)[|before|] == topology;
        if HasTopology(value, other) {
          var i :| 0 <= i < |before| && TrimSpace(before[i]) == other;
          assert TrimSpace(Pieces(added)[i]) == other;
        }
        if HasTopology(added, other) && other != topology {
          var i :| 0 <= i < |Pieces(added)| && TrimSpace(Pieces(added)[i]) == other;
          assert TrimSpace(before[i]) == other;
        }
      }
    }
  }

  // A name with a comma in it never counts as named, so each publication would add it again.
  lemma CommaNeverNamed(value: string, topology: string)
    requires ',' in topology
    ensures !HasTopology(value, topology)
  {
    if HasTopology(value, topology) {
      var i :| 0 <= i < |Pieces(value)| && TrimSpace(Pieces(value)[i]) == topology;
      PiecesHaveNoComma(value, i);
      TrimIsPart(Pieces(value)[i]);
    }
  }

  lemma {:induction false} PiecesHaveNoComma(value: string, i: nat)
    requires i < |Pieces(value)|
    ensures ',' !in Pieces(value)[i]
  {
    if value != "" {
      var rest := Pieces(value[1..]);
      if value[0] == ',' {
        if i > 0 {
          PiecesHaveNoComma(value[1..], i - 1);
        }
      } else {
        PiecesHaveNoComma(value[1..], i);
      }
    }
  }

  lemma TrimIsPart(s: string)
    ensures forall c :: c in TrimSpace(s) ==> c in s
  {
    TrimLeftIsPart(s);
    TrimRightIsPart(TrimLeft(s));
  }

  lemma {:induction false} TrimLeftIsPart(s: string)
    ensures forall c :: c in TrimLeft(s) ==> c in s
  {
    if s != "" && IsSpace(s[0]) {
      TrimLeftIsPart(s[1..]);
    }
  }

  lemma {:induction false} TrimRightIsPart(s: string)
    ensures forall c :: c in TrimRight(s) ==> c in s
  {
    if s != "" && IsSpace(s[|s| - 1]) {
      TrimRightIsPart(s[..|s| - 1]);
    }
  }
}
