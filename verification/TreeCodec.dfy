/** The assumptions about hashing and encoding can be met: a codec that meets them. */
module TreeCodec {
  import opened Options
  import opened Chunking
  import opened TreeStore

  // ---- Records as numbers ---------------------------------------------------------------------

  function Letters(s: string): seq<nat> {
    [|s|] + seq(|s|, i requires 0 <= i < |s| => s[i] as int)
  }

  function Strings(ss: seq<string>): seq<nat>
    decreases |ss|
  {
    if ss == [] then [0] else [1] + Letters(ss[0]) + Strings(ss[1..])
  }

  function Signed(x: int): nat {
    if x >= 0 then 2 * x else -2 * x - 1
  }

  function Bit(b: bool): nat {
    if b then 1 else 0
  }

  // The entries of a map in some order, key and value in turn.
  ghost function Listing(m: map<string, Key>): seq<string> {
    if m == map[] then [] else
      var k :| k in m;
      [k, m[k]] + Listing(m - {k})
  }

  function Entries(ss: seq<string>): map<string, Key>
    decreases |ss|
  {
    if |ss| < 2 then map[] else Entries(ss[2..])[ss[0] := ss[1]]
  }

  lemma {:induction false} ListingIsTheMap(m: map<string, Key>)
    ensures Entries(Listing(m)) == m
  {
    if m != map[] {
      var k := Listing(m)[0];
      assert Listing(m) == [k, m[k]] + Listing(m - {k});
      assert Listing(m)[2..] == Listing(m - {k});
      ListingIsTheMap(m - {k});
    }
  }

  function AttrNumbers(a: Attrs): seq<nat> {
    [a.inode, Bit(a.isDir), a.mode, a.size, Signed(a.atime), Signed(a.mtime), a.uid, a.gid, a.flags]
  }

  ghost function Numbers(r: Record): seq<nat> {
    [r.version] + AttrNumbers(r.attrs) +
    (Letters(r.name) + (Letters(r.prevSig) + (Strings(Listing(r.childSigs)) + Strings(r.dataBlocks))))
  }

  lemma LettersSplit(a: string, b: string, x: seq<nat>, y: seq<nat>)
    requires Letters(a) + x == Letters(b) + y
    ensures a == b && x == y
  {
    var s, t := Letters(a) + x, Letters(b) + y;
    assert s[0] == |a| && t[0] == |b|;
    forall i | 0 <= i < |a| ensures a[i] == b[i] {
      assert s[i + 1] == a[i] as int && t[i + 1] == b[i] as int;
    }
    assert x == s[|a| + 1..] && y == t[|a| + 1..];
  }

  lemma {:induction false} StringsSplit(a: seq<string>, b: seq<string>, x: seq<nat>, y: seq<nat>)
    requires Strings(a) + x == Strings(b) + y
    ensures a == b && x == y
    decreases |a|
  {
    var s, t := Strings(a) + x, Strings(b) + y;
    assert s[0] == (if a == [] then 0 else 1) && t[0] == (if b == [] then 0 else 1);
    if a == [] {
      assert x == s[1..] && y == t[1..];
    } else {
      FirstStringSplits(a, b, x, y);
      StringsSplit(a[1..], b[1..], x, y);
      assert a == [a[0]] + a[1..] && b == [b[0]] + b[1..];
    }
  }

  lemma AfterFirst(a: seq<string>, x: seq<nat>)
    requires a != []
    ensures |Strings(a) + x| > 0 && (Strings(a) + x)[1..] == Letters(a[0]) + (Strings(a[1..]) + x)
  {
  }

  lemma FirstStringSplits(a: seq<string>, b: seq<string>, x: seq<nat>, y: seq<nat>)
    requires a != [] && b != [] && Strings(a) + x == Strings(b) + y
    ensures a[0] == b[0] && Strings(a[1..]) + x == Strings(b[1..]) + y
  {
    AfterFirst(a, x);
    AfterFirst(b, y);
    LettersSplit(a[0], b[0], Strings(a[1..]) + x, Strings(b[1..]) + y);
  }

  lemma NumbersDetermine(a: Record, b: Record)
    requires Numbers(a) == Numbers(b)
    ensures a == b
  {
    var s, t := Numbers(a), Numbers(b);
    var x := Strings(Listing(a.childSigs)) + Strings(a.dataBlocks);
    var y := Strings(Listing(b.childSigs)) + Strings(b.dataBlocks);
    assert s[0] == a.version && t[0] == b.version;
    assert s[1..10] == AttrNumbers(a.attrs) && t[1..10] == AttrNumbers(b.attrs);
    AttrsDetermine(a.attrs, b.attrs);
    assert s[10..] == Letters(a.name) + (Letters(a.prevSig) + x);
    assert t[10..] == Letters(b.name) + (Letters(b.prevSig) + y);
    LettersSplit(a.name, b.name, Letters(a.prevSig) + x, Letters(b.prevSig) + y);
    LettersSplit(a.prevSig, b.prevSig, x, y);
    StringsSplit(Listing(a.childSigs), Listing(b.childSigs), Strings(a.dataBlocks), Strings(b.dataBlocks));
    ListingIsTheMap(a.childSigs);
    ListingIsTheMap(b.childSigs);
    assert Strings(a.dataBlocks) + [] == Strings(b.dataBlocks) + [];
    StringsSplit(a.dataBlocks, b.dataBlocks, [], []);
  }

  lemma AttrsDetermine(a: Attrs, b: Attrs)
    requires AttrNumbers(a) == AttrNumbers(b)
    ensures a == b
  {
    var s, t := AttrNumbers(a), AttrNumbers(b);
    assert s[0] == t[0] && s[1] == t[1] && s[2] == t[2] && s[3] == t[3] && s[4] == t[4];
    assert s[5] == t[5] && s[6] == t[6] && s[7] == t[7] && s[8] == t[8];
  }

  // ---- Numbers as bytes -----------------------------------------------------------------------

  // Each number as so many ones, and a zero.
  function Tally(ns: seq<nat>): Data
    decreases |ns|
  {
    if ns == [] then [] else seq(ns[0], _ => 1) + [0] + Tally(ns[1..])
  }

  lemma {:induction false} TallyDetermines(a: seq<nat>, b: seq<nat>)
    requires Tally(a) == Tally(b)
    ensures a == b
    decreases |a|
  {
    var s, t := Tally(a), Tally(b);
    if a != [] && b != [] {
      assert s[a[0]] == 0 && forall i :: 0 <= i < a[0] ==> s[i] == 1;
      assert t[b[0]] == 0 && forall i :: 0 <= i < b[0] ==> t[i] == 1;
      assert a[0] == b[0];
      assert s[a[0] + 1..] == Tally(a[1..]) && t[b[0] + 1..] == Tally(b[1..]);
      TallyDetermines(a[1..], b[1..]);
      assert a == [a[0]] + a[1..] && b == [b[0]] + b[1..];
    }
  }

  // ---- The codec ------------------------------------------------------------------------------

  function KeyOf(d: Data): Key {
    ['k'] + seq(|d|, i requires 0 <= i < |d| => d[i] as char)
  }

  ghost function BytesOf(r: Record): Data {
    Tally(Numbers(r))
  }

  ghost function RecordOf(d: Data): Option<Record> {
    if r :| BytesOf(r) == d then Some(r) else None
  }

  lemma KeysDetermine(a: Data, b: Data)
    requires KeyOf(a) == KeyOf(b)
    ensures a == b
  {
    var s, t := KeyOf(a), KeyOf(b);
    forall i | 0 <= i < |a| ensures a[i] == b[i] {
      assert s[i + 1] == a[i] as char && t[i + 1] == b[i] as char;
    }
  }

  lemma RecordsReadBack(r: Record)
    ensures RecordOf(BytesOf(r)) == Some(r)
  {
    var u := RecordOf(BytesOf(r));
    assert u.Some? && BytesOf(u.value) == BytesOf(r);
    TallyDetermines(Numbers(u.value), Numbers(r));
    NumbersDetermine(u.value, r);
  }

  // There is a hash and an encoding the file system can rely on.
  lemma SoundCodecExists() returns (c: Codec)
    ensures Sound(c)
  {
    c := Codec(d => KeyOf(d), r => BytesOf(r), d => RecordOf(d));
    forall a, b | c.hash(a) == c.hash(b) ensures a == b {
      KeysDetermine(a, b);
    }
    forall r ensures c.decode(c.encode(r)) == Some(r) {
      RecordsReadBack(r);
    }
  }
}
