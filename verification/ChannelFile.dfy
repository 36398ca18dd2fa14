/** The permanent channels that the lines of the channel file make, said line by line. */
module ChannelFile {
  import opened Text
  import opened Numbers
  import opened ChannelModel
  import opened ChannelPlaces

  /** What a line makes, if nothing else did before: its own fields and a name, which if the line gives none is made of
      realm, short name, country and the number one. */
  ghost predicate Makes(line: (Option<string>, Info), made: Info) {
    && Acceptable(made) && made == line.1.(name := made.name)
    && match line.0
       case Some(name) => made.name == name
       case None =>
         && made.shortname.Some?
         && made.name == (if made.realm.Some? then made.realm.value + " " else "") + made.shortname.value +
                         (if made.country.Some? then " " + made.country.value else "") + "-1"
  }

  /** Line `j` makes the channel and no line before it makes one of that name, in whatever case. */
  ghost predicate FirstOfName(lines: seq<(Option<string>, Info)>, j: nat, made: Info) {
    && j < |lines| && Makes(lines[j], made)
    && forall i, other | 0 <= i < j && Makes(lines[i], other) :: Fold(other.name) != Fold(made.name)
  }

  ghost predicate IsFirst(lines: seq<(Option<string>, Info)>, made: Info) {
    exists j: nat :: FirstOfName(lines, j, made)
  }

  /** Exactly those channels, the later lines' first. */
  ghost predicate MadeBy(lines: seq<(Option<string>, Info)>, infos: seq<Info>) {
    && (forall made :: made in infos <==> IsFirst(lines, made))
    && forall p, q, j: nat, i: nat |
         0 <= p < q < |infos| && FirstOfName(lines, j, infos[p]) && FirstOfName(lines, i, infos[q]) :: i < j
  }

  lemma MakesIs(line: (Option<string>, Info), made: Info)
    ensures Makes(line, made) <==> FullInfo(line.0, line.1) == Some(made) && Creatable(made)
  {
    assert Decimal(1) == "1";
    AcceptableIs(made);
    hide Acceptable, Creatable, Decimal;
    if line.0.None? && line.1.shortname.Some? {
      var s := (if line.1.realm.Some? then line.1.realm.value + " " else "") + line.1.shortname.value +
               (if line.1.country.Some? then " " + line.1.country.value else "");
      assert s + "-1" == s + "-" + "1" == FormatName(line.1, 1);
    }
  }

  lemma {:induction false} SomeFirst(lines: seq<(Option<string>, Info)>, i: nat, other: Info)
    returns (j: nat, made: Info)
    requires i < |lines| && Makes(lines[i], other)
    ensures j <= i && FirstOfName(lines, j, made) && Fold(made.name) == Fold(other.name)
  {
    hide Makes, Fold;
    if h: nat, x :| h < i && Makes(lines[h], x) && Fold(x.name) == Fold(other.name) {
      j, made := SomeFirst(lines, h, x);
    } else {
      j, made := i, other;
    }
  }

  lemma FirstInPrefix(lines: seq<(Option<string>, Info)>, n: nat, j: nat, made: Info)
    requires n <= |lines|
    ensures FirstOfName(lines[..n], j, made) <==> j < n && FirstOfName(lines, j, made)
    ensures FirstOfName(lines, j, made) ==> j < |lines|
  {
    hide Makes, Fold;
  }

  /** Whether the last line makes its channel is seen from the list so far. */
  lemma ListedBefore(lines: seq<(Option<string>, Info)>, before: seq<Info>, made: Info)
    requires lines != [] && MadeBy(lines[..|lines| - 1], before) && Makes(lines[|lines| - 1], made)
    ensures NameListed(before, made.name) <==> !FirstOfName(lines, |lines| - 1, made)
  {
    hide Makes, Fold;
    var n := |lines| - 1;
    if NameListed(before, made.name) {
      var p :| 0 <= p < |before| && SameText(before[p].name, made.name);
      assert IsFirst(lines[..n], before[p]);
      var j: nat :| FirstOfName(lines[..n], j, before[p]);
      FirstInPrefix(lines, n, j, before[p]);
    } else {
      forall i, other | 0 <= i < n && Makes(lines[i], other)
        ensures Fold(other.name) != Fold(made.name)
      {
        var j, first := SomeFirst(lines[..n], i, other);
        assert IsFirst(lines[..n], first) && first in before;
      }
    }
  }

  /** What the file makes: a line's channel if it is the first of its name, the latest line's in front. */
  lemma {:induction false} ListedLaw(lines: seq<(Option<string>, Info)>)
    ensures MadeBy(lines, Listed(lines))
  {
    hide Makes, Fold, FullInfo, Creatable, NameListed, MadeBy;
    if lines == [] {
      NothingMade();
    } else {
      var n := |lines| - 1;
      var before := Listed(lines[..n]);
      ListedLaw(lines[..n]);
      var info := FullInfo(lines[n].0, lines[n].1);
      LastMakes(lines, n, info);
      if info.Some? && Creatable(info.value) {
        ListedBefore(lines, before, info.value);
      }
      if info.Some? && FirstOfName(lines, n, info.value) {
        OneMore(lines, n, before, info.value);
      } else {
        NoneMore(lines, n, before);
      }
    }
  }

  lemma NothingMade()
    ensures MadeBy([], [])
  {
  }

  lemma LastMakes(lines: seq<(Option<string>, Info)>, n: nat, info: Option<Info>)
    requires n < |lines| && info == FullInfo(lines[n].0, lines[n].1)
    ensures forall made | FirstOfName(lines, n, made) :: Makes(lines[n], made)
    ensures forall made :: Makes(lines[n], made) <==> info == Some(made) && Creatable(made)
  {
    forall made
      ensures Makes(lines[n], made) <==> info == Some(made) && Creatable(made)
    {
      MakesIs(lines[n], made);
    }
    hide Makes, Fold;
  }

  /** The first lines of a file make of each name what they make in the file. */
  lemma PrefixMakes(lines: seq<(Option<string>, Info)>, n: nat)
    requires n + 1 == |lines|
    ensures forall j: nat, made | FirstOfName(lines[..n], j, made) :: j < n && FirstOfName(lines, j, made)
    ensures forall j: nat, made | FirstOfName(lines, j, made) ::
              if j < n then FirstOfName(lines[..n], j, made) else j == n && FirstOfName(lines, n, made)
    ensures forall made, i: nat, j: nat | FirstOfName(lines, i, made) && FirstOfName(lines, j, made) :: i == j
  {
    hide Makes, Fold;
    forall j: nat, made | FirstOfName(lines[..n], j, made)
      ensures j < n && FirstOfName(lines, j, made)
    {
      FirstInPrefix(lines, n, j, made);
    }
    forall j: nat, made | FirstOfName(lines, j, made)
      ensures if j < n then FirstOfName(lines[..n], j, made) else j == n && FirstOfName(lines, n, made)
    {
      FirstInPrefix(lines, n, j, made);
    }
    forall made, i: nat, j: nat | FirstOfName(lines, i, made) && FirstOfName(lines, j, made)
      ensures i == j
    {
      OneFirst(lines, made);
    }
  }

  lemma OneFirst(lines: seq<(Option<string>, Info)>, made: Info)
    ensures forall i: nat, j: nat | FirstOfName(lines, i, made) && FirstOfName(lines, j, made) :: i == j
  {
    hide Makes, Fold;
  }

  lemma NoneMore(lines: seq<(Option<string>, Info)>, n: nat, before: seq<Info>)
    requires n + 1 == |lines| && MadeBy(lines[..n], before)
    requires forall made :: !FirstOfName(lines, n, made)
    ensures MadeBy(lines, before)
  {
    hide FirstOfName;
    PrefixMakes(lines, n);
  }

  lemma OneMade(lines: seq<(Option<string>, Info)>, n: nat, a: Info, b: Info)
    requires FirstOfName(lines, n, a) && FirstOfName(lines, n, b)
    ensures a == b
  {
    hide Acceptable, Fold;
  }

  lemma OneMore(lines: seq<(Option<string>, Info)>, n: nat, before: seq<Info>, made: Info)
    requires n + 1 == |lines| && MadeBy(lines[..n], before) && FirstOfName(lines, n, made)
    ensures MadeBy(lines, [made] + before)
  {
    hide FirstOfName;
    PrefixMakes(lines, n);
    var after := [made] + before;
    forall j: nat, other | FirstOfName(lines, j, other)
      ensures other in after
    {
      if j == n {
        OneMade(lines, n, other, made);
      } else {
        assert other in before;
      }
    }
    forall p, q, j: nat, i: nat |
      0 <= p < q < |after| && FirstOfName(lines, j, after[p]) && FirstOfName(lines, i, after[q])
      ensures i < j
    {
      assert after[q] == before[q - 1] && IsFirst(lines[..n], after[q]) && i < n;
      assert p > 0 ==> after[p] == before[p - 1];
    }
  }
}
