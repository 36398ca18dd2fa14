/** The index over all accounts: a hash table keyed by a case-folding name hash, searched by name
    or by "#uid" (src/bnetd/account.c, src/common/hashtable.c). */
module AccountIndex {
  import opened Text
  import opened Numbers

  /** What the index knows of an account. */
  datatype Entry = Entry(name: string, uid: nat, hash: bv32)

  // ------------------------------------------------------------------- hash

  function Rotl(x: bv32, n: bv32): bv32 {
    (x << (n & 31)) | (x >> (-n & 31))
  }

  function Xor(x: bv32, y: bv32): bv32 {
    x ^ y
  }

  /** The position of the next character. */
  function Next(pos: bv32): bv32 {
    pos + 7
  }

  function CharBits(c: char): bv32
    requires IsByte(c)
  {
    Lower(c) as int as bv32
  }

  /** The hash of the rest of a name, from bit position `pos` on. */
  function HashFrom(name: string, pos: bv32): bv32
    requires CString(name)
  {
    if name == [] then 0 else Xor(Rotl(CharBits(name[0]), pos), HashFrom(name[1..], Next(pos)))
  }

  function Hash(name: string): bv32
    requires CString(name)
  {
    HashFrom(name, 0)
  }

  lemma XorAssociates(a: bv32, b: bv32, c: bv32)
    ensures Xor(Xor(a, b), c) == Xor(a, Xor(b, c))
    ensures Xor(a, 0) == Xor(0, a) == a
  {
  }

  /** account_hash: the hash and the rotating position in one pass. */
  method AccountHash(username: string) returns (hash: bv32)
    requires CString(username)
    ensures hash == Hash(username)
  {
    hide Rotl, CharBits, Xor, Next;
    hash := 0;
    var pos: bv32 := 0;
    XorAssociates(HashFrom(username, 0), 0, 0);
    for i := 0 to |username|
      invariant Xor(hash, HashFrom(username[i..], pos)) == Hash(username)
    {
      assert username[i..][1..] == username[i + 1..];
      var term := Rotl(CharBits(username[i]), pos);
      XorAssociates(hash, term, HashFrom(username[i + 1..], Next(pos)));
      hash := Xor(hash, term);
      pos := Next(pos);
    }
    XorAssociates(hash, 0, 0);
  }

  function Turn(x: bv32): bv32 {
    (x << 7) | (x >> 25)
  }

  lemma RotlTurns(x: bv32, n: bv32)
    ensures Rotl(x, Next(n)) == Turn(Rotl(x, n))
  {
  }

  lemma TurnXor(x: bv32, y: bv32)
    ensures Turn(Xor(x, y)) == Xor(Turn(x), Turn(y))
    ensures Turn(0) == 0 && Rotl(x, 0) == x
  {
  }

  lemma {:induction false} HashFromTurns(name: string, pos: bv32)
    requires CString(name)
    ensures HashFrom(name, Next(pos)) == Turn(HashFrom(name, pos))
  {
    hide Rotl, CharBits, Xor, Next, Turn;
    if name == [] {
      TurnXor(0, 0);
    } else {
      RotlTurns(CharBits(name[0]), pos);
      HashFromTurns(name[1..], Next(pos));
      TurnXor(Rotl(CharBits(name[0]), pos), HashFrom(name[1..], Next(pos)));
    }
  }

  lemma HashOfFirst(c: char, name: string)
    requires IsByte(c) && CString(name)
    ensures CString([c] + name) && Hash([c] + name) == Xor(CharBits(c), Turn(Hash(name)))
  {
    hide Rotl, CharBits, Xor, Next, Turn;
    assert ([c] + name)[1..] == name;
    TurnXor(CharBits(c), 0);
    HashFromTurns(name, 0);
  }

  /** Of a hash, from the first character to the last: a character in front enters in lower case, and what the
      rest had is turned left by seven bits. */
  lemma HashLaw(c: char, low: char, name: string)
    requires IsByte(c) && CString(name)
    requires if 'A' <= c <= 'Z' then low as int == c as int + 32 else low == c
    ensures Hash("") == 0
    ensures CString([c] + name)
    ensures Hash([c] + name) == (low as int as bv32) ^ ((Hash(name) << 7) | (Hash(name) >> 25))
  {
    assert Hash("") == 0;
    assert CharBits(c) == low as int as bv32;
    hide Hash, HashFrom, CharBits;
    HashOfFirst(c, name);
  }

  lemma {:induction false} HashFromFolds(s: string, t: string, pos: bv32)
    requires CString(s) && CString(t) && SameText(s, t)
    ensures HashFrom(s, pos) == HashFrom(t, pos)
  {
    hide Rotl;
    if s != [] {
      assert |s| == |Fold(s)| == |Fold(t)| == |t|;
      assert Lower(s[0]) == Fold(s)[0] == Fold(t)[0] == Lower(t[0]);
      assert Fold(s[1..]) == Fold(s)[1..] == Fold(t)[1..] == Fold(t[1..]);
      HashFromFolds(s[1..], t[1..], Next(pos));
    }
  }

  /** Spellings of one name all hash alike. */
  lemma HashFolds(s: string, t: string)
    requires CString(s) && CString(t) && SameText(s, t)
    ensures Hash(s) == Hash(t)
  {
    HashFromFolds(s, t, 0);
  }

  // --------------------------------------------------------------- matching

  /** The uid asked for by "#uid"; zero when the text asks for a name. */
  function AskedUid(who: string): nat {
    if who != [] && who[0] == '#' && ParseUint(who[1..]).Some? then ParseUint(who[1..]).value else 0
  }

  /** The account a text denotes. */
  predicate Denotes(who: string, e: Entry) {
    if AskedUid(who) != 0 then e.uid == AskedUid(who) else SameText(e.name, who)
  }

  method ReadAskedUid(who: string) returns (userid: nat)
    ensures userid == AskedUid(who)
  {
    userid := 0;
    if who != [] && who[0] == '#' {
      var parsed := StrToUint(who[1..]);
      userid := if parsed.Some? then parsed.value else 0;
    }
  }

  /** account_match, hash comparison first. */
  method AccountMatch(e: Entry, who: string) returns (matches: bool)
    requires CString(who) && Sound(e)
    ensures matches == Denotes(who, e)
  {
    var userid := ReadAskedUid(who);
    if userid != 0 {
      return e.uid == userid;
    }
    var namehash := AccountHash(who);
    if e.hash != namehash {
      if SameText(e.name, who) {
        HashFolds(e.name, who);
      }
      return false;
    }
    matches := StrCaseEqual(e.name, who);
  }

  predicate Sound(e: Entry) {
    e.name != [] && CString(e.name) && e.hash == Hash(e.name) && 1 <= e.uid < UINT_LIMIT
  }

  ghost predicate Unique(all: set<Entry>) {
    forall a, b | a in all && b in all && a != b :: a.uid != b.uid && !SameText(a.name, b.name)
  }

  /** What a text denotes: a number sign and a number from 1 to 2^32 - 1 the account of that number, any other
      text the account of that name. */
  lemma DenotesLaw(who: string, n: nat, e: Entry)
    ensures who != "" && who[0] == '#' && 0 < n && ParseUint(who[1..]) == Some(n) ==> (Denotes(who, e) <==> e.uid == n)
    ensures who == "" || who[0] != '#' || ParseUint(who[1..]) in {None, Some(0)} ==>
              (Denotes(who, e) <==> SameText(e.name, who))
  {
  }

  lemma {:induction false} SkipBlanksFolds(s: string, t: string)
    requires SameText(s, t)
    ensures SameText(SkipBlanks(s), SkipBlanks(t))
  {
    if s != [] && t != [] {
      assert Fold(s)[0] == Fold(t)[0];
      if s[0] == ' ' || s[0] == '\t' {
        RestFolds(s, t);
        SkipBlanksFolds(s[1..], t[1..]);
      }
    }
  }

  lemma RestFolds(s: string, t: string)
    requires SameText(s, t) && s != [] && t != []
    ensures SameText(s[1..], t[1..])
  {
    assert Fold(s[1..]) == Fold(s)[1..] && Fold(t[1..]) == Fold(t)[1..];
  }

  lemma DigitsFold(s: string, t: string)
    requires SameText(s, t)
    ensures AllDigits(s) ==> s == t
  {
    assert |Fold(s)| == |Fold(t)|;
    forall i | 0 <= i < |s| && IsDigit(s[i])
      ensures s[i] == t[i]
    {
      assert Fold(s)[i] == Fold(t)[i];
    }
  }

  lemma ParseFolds(s: string, t: string)
    requires SameText(s, t)
    ensures ParseUint(s) == ParseUint(t)
  {
    SkipBlanksFolds(s, t);
    var a, b := SkipBlanks(s), SkipBlanks(t);
    if a != [] && b != [] {
      assert Fold(a)[0] == Fold(b)[0];
      RestFolds(a, b);
    }
    DigitsFold(SkipPlus(a), SkipPlus(b));
    DigitsFold(SkipPlus(b), SkipPlus(a));
  }

  /** Texts that differ only in case denote the same accounts. */
  lemma DenotesFolds(s: string, t: string, e: Entry)
    requires SameText(s, t)
    ensures Denotes(s, e) == Denotes(t, e)
  {
    hide ParseUint;
    if s != [] && t != [] {
      assert Fold(s)[0] == Fold(t)[0];
      RestFolds(s, t);
      ParseFolds(s[1..], t[1..]);
    }
  }

  /** Names and uids being distinct, a text denotes at most one account: matching an account
      against it and looking the account up by it are the same thing. */
  lemma DenotesAtMostOne(all: set<Entry>, who: string, a: Entry, b: Entry)
    requires Unique(all) && a in all && b in all
    requires Denotes(who, a) && Denotes(who, b)
    ensures a == b
  {
    if AskedUid(who) == 0 {
      assert SameText(a.name, b.name);
    }
  }

  /** account_check_name. */
  predicate NameOk(name: string) {
    && 2 <= |name| < 16
    && (IsDigit(name[0]) || 'a' <= Lower(name[0]) <= 'z')
    && ' ' !in name && ',' !in name
  }

  /** Two to fifteen characters, a digit or a letter in front, no blank and no comma. */
  lemma NameLaw(name: string)
    ensures NameOk(name) <==>
              && 2 <= |name| <= 15
              && ('0' <= name[0] <= '9' || 'A' <= name[0] <= 'Z' || 'a' <= name[0] <= 'z')
              && forall c | c in name :: c != ' ' && c != ','
  {
  }

  /** Every account answers to its own uid, and to its own name if the name is a permitted one. */
  lemma OwnNames(e: Entry)
    requires Sound(e)
    ensures Denotes("#" + Decimal(e.uid), e)
    ensures NameOk(e.name) ==> Denotes(e.name, e)
  {
    DecimalParses(e.uid);
    assert ("#" + Decimal(e.uid))[1..] == Decimal(e.uid);
  }

  // ------------------------------------------------------------- the table

  ghost function AllOf(rows: seq<seq<Entry>>): set<Entry> {
    set r, i | 0 <= r < |rows| && 0 <= i < |rows[r]| :: rows[r][i]
  }

  lemma AllAfterInsert(rows: seq<seq<Entry>>, r: nat, e: Entry)
    requires r < |rows|
    ensures AllOf(rows[r := [e] + rows[r]]) == AllOf(rows) + {e}
  {
    var after := rows[r := [e] + rows[r]];
    assert after[r][0] == e;
    forall x | x in AllOf(rows)
      ensures x in AllOf(after)
    {
      var s, i :| 0 <= s < |rows| && 0 <= i < |rows[s]| && rows[s][i] == x;
      assert after[s][if s == r then i + 1 else i] == x;
    }
    forall x | x in AllOf(after)
      ensures x == e || x in AllOf(rows)
    {
      var s, i :| 0 <= s < |after| && 0 <= i < |after[s]| && after[s][i] == x;
      assert x == e || x == rows[s][if s == r then i - 1 else i];
    }
  }

  class Table {
    const rows: array<seq<Entry>>
    var maxUid: nat

    ghost function All(): set<Entry>
      reads this, rows
    {
      AllOf(rows[..])
    }

    function Row(hash: bv32): (r: nat)
      requires rows.Length > 0
      ensures r < rows.Length
    {
      hash as int % rows.Length
    }

    ghost predicate Valid()
      reads this, rows
    {
      && rows.Length > 0
      && (forall r, i | 0 <= r < rows.Length && 0 <= i < |rows[r]| ::
            Sound(rows[r][i]) && Row(rows[r][i].hash) == r)
      && Unique(All())
      && (forall e | e in All() :: e.uid <= maxUid)
      && (maxUid == 0 || exists e | e in All() :: e.uid == maxUid)
      && maxUid < UINT_LIMIT
    }

    constructor (size: nat)
      requires size > 0
      ensures Valid() && All() == {} && fresh(rows)
    {
      rows := new seq<Entry>[size](_ => []);
      maxUid := 0;
    }

    method FindByUid(uid: nat) returns (found: Option<Entry>)
      ensures found.Some? ==> found.value in All() && found.value.uid == uid
      ensures found.None? ==> forall e | e in All() :: e.uid != uid
    {
      for r := 0 to rows.Length
        invariant forall s, i | 0 <= s < r && 0 <= i < |rows[s]| :: rows[s][i].uid != uid
      {
        for i := 0 to |rows[r]|
          invariant forall j | 0 <= j < i :: rows[r][j].uid != uid
        {
          if rows[r][i].uid == uid {
            return Some(rows[r][i]);
          }
        }
      }
      found := None;
    }

    /** Only the row the hash selects is searched. */
    method FindByName(name: string) returns (found: Option<Entry>)
      requires Valid() && CString(name)
      ensures found.Some? ==> found.value in All() && SameText(found.value.name, name)
      ensures found.None? ==> forall e | e in All() :: !SameText(e.name, name)
    {
      hide Fold, Hash, Unique;
      var namehash := AccountHash(name);
      var r := Row(namehash);
      for i := 0 to |rows[r]|
        invariant forall j | 0 <= j < i :: !SameText(rows[r][j].name, name)
      {
        if SameText(rows[r][i].name, name) {
          return Some(rows[r][i]);
        }
      }
      forall e | e in All()
        ensures !SameText(e.name, name)
      {
        if SameText(e.name, name) {
          HashFolds(e.name, name);
        }
      }
      found := None;
    }

    /** accountlist_find_account: the result is what scanning every account would give, and by
        DenotesAtMostOne there is only one candidate. */
    method Find(who: string) returns (found: Option<Entry>)
      requires Valid() && CString(who)
      ensures found.Some? ==> found.value in All() && Denotes(who, found.value)
      ensures found.None? ==> forall e | e in All() :: !Denotes(who, e)
    {
      var userid := ReadAskedUid(who);
      if userid != 0 {
        found := FindByUid(userid);
      } else {
        found := FindByName(who);
      }
    }

    /** The duplicate test of accountlist_add_account: hashes are compared before names. */
    method InUse(name: string, uid: nat, hash: bv32) returns (used: bool)
      requires Valid() && CString(name) && hash == Hash(name)
      ensures used <==> exists e | e in All() :: e.uid == uid || SameText(e.name, name)
    {
      hide Fold, Hash, Unique;
      for r := 0 to rows.Length
        invariant forall s, i | 0 <= s < r && 0 <= i < |rows[s]| ::
                    rows[s][i].uid != uid && !SameText(rows[s][i].name, name)
      {
        for i := 0 to |rows[r]|
          invariant forall j | 0 <= j < i :: rows[r][j].uid != uid && !SameText(rows[r][j].name, name)
        {
          var e := rows[r][i];
          if e.uid == uid || (e.hash == hash && SameText(e.name, name)) {
            assert e in All();
            return true;
          }
          if SameText(e.name, name) {
            HashFolds(e.name, name);
          }
        }
      }
      used := false;
    }

    /** accountlist_add_account; refuses an empty name, a zero uid, a uid or a name in use. */
    method Add(name: string, uid: nat) returns (added: bool)
      requires Valid() && CString(name) && uid < UINT_LIMIT
      modifies this, rows
      ensures Valid()
      ensures added <==> name != [] && uid >= 1
                         && forall e | e in old(All()) :: e.uid != uid && !SameText(e.name, name)
      ensures All() == old(All()) + if added then {Entry(name, uid, Hash(name))} else {}
      ensures maxUid == if added && uid > old(maxUid) then uid else old(maxUid)
    {
      hide Fold, Hash, CString;
      if name == [] || uid < 1 {
        return false;
      }
      var hash := AccountHash(name);
      var used := InUse(name, uid, hash);
      if used {
        return false;
      }
      Insert(Entry(name, uid, hash));
      added := true;
    }

    /** hashtable_insert_data, at the head of the row the hash selects, and the uid counter. */
    method Insert(e: Entry)
      requires Valid() && Sound(e)
      requires forall x | x in All() :: x.uid != e.uid && !SameText(x.name, e.name)
      modifies this, rows
      ensures Valid() && All() == old(All()) + {e}
      ensures maxUid == if e.uid > old(maxUid) then e.uid else old(maxUid)
    {
      hide Fold, Hash, CString;
      var r := Row(e.hash);
      AllAfterInsert(rows[..], r, e);
      ghost var was := rows[..];
      rows[r] := [e] + rows[r];
      assert rows[..] == was[r := [e] + was[r]];
      if e.uid > maxUid {
        maxUid := e.uid;
      }
    }

    /** account_create for a new player followed by accountlist_add_account: the next uid is always
        free, so only the name can be in use, or the uid counter exhausted. */
    method Create(name: string) returns (created: bool)
      requires Valid() && CString(name)
      modifies this, rows
      ensures Valid()
      ensures created <==> NameOk(name) && old(maxUid) + 1 < UINT_LIMIT
                           && forall e | e in old(All()) :: !SameText(e.name, name)
      ensures All() == old(All()) + if created then {Entry(name, old(maxUid) + 1, Hash(name))} else {}
    {
      hide Fold, Hash, CString, Unique;
      if !NameOk(name) {
        return false;
      }
      created := Add(name, (maxUid + 1) % UINT_LIMIT);
    }
  }
}
