/** Priorities as directory names, and the highest one in a listing. */
module Priority {
  import opened CacheTypes
  import opened FileSystem

  predicate IsDigit(c: char) {
    '0' <= c <= '9'
  }

  predicate AllDigits(s: string) {
    forall i :: 0 <= i < |s| ==> IsDigit(s[i])
  }

  /** The number a digit string denotes; leading zeros and the empty string are allowed. */
  function Value(s: string): nat
    requires AllDigits(s)
  {
    if s == [] then 0 else 10 * Value(s[..|s| - 1]) + (s[|s| - 1] as int - '0' as int)
  }

  /** A directory name read as a priority. */
  predicate IsPriority(name: string) {
    AllDigits(name) && Value(name) <= 255
  }

  /** A longer digit string does not denote a smaller number. */
  lemma {:induction false} ValueGrows(s: string, n: nat)
    requires AllDigits(s) && n <= |s|
    ensures AllDigits(s[..n]) && Value(s[..n]) <= Value(s)
  {
    if n < |s| {
      ValueGrows(s[..|s| - 1], n);
      assert s[..|s| - 1][..n] == s[..n];
    } else {
      assert s[..n] == s;
    }
  }

  /** Parses a directory name digit by digit and gives up as soon as it cannot be a priority. */
  method FindHighest(name: string, isDirectory: bool, highest: byte) returns (prio: byte)
    ensures isDirectory && IsPriority(name) ==>
      prio as int == if Value(name) > highest as int then Value(name) else highest as int
    ensures !(isDirectory && IsPriority(name)) ==> prio == highest
  {
    prio := highest;
    if !isDirectory {
      return;
    }
    var value: nat, i := 0, 0;
    while i < |name|
      invariant i <= |name| && AllDigits(name[..i]) && value == Value(name[..i]) && value <= 255
    {
      if !IsDigit(name[i]) {
        return;
      }
      assert name[..i + 1][..i] == name[..i];
      value := value * 10 + (name[i] as int - '0' as int);
      if value > 255 {
        if AllDigits(name) {
          ValueGrows(name, i + 1);
        }
        return;
      }
      i := i + 1;
    }
    assert name[..i] == name;
    if value > highest as int {
      prio := value as byte;
    }
  }

  function DigitChar(n: nat): char
    requires n < 10
  {
    ('0' as int + n) as char
  }

  /** The directory name of a priority: three digits, padded with zeros. */
  function DirName(p: byte): string {
    var n := p as int;
    [DigitChar(n / 100), DigitChar(n / 10 % 10), DigitChar(n % 10)]
  }

  lemma DirNameDenotes(p: byte)
    ensures IsPriority(DirName(p)) && Value(DirName(p)) == p as int && |DirName(p)| == 3
  {
    var name := DirName(p);
    assert name[..2][..1] == name[..1] && name[..1][..0] == [];
    assert Value(name[..1]) == p as int / 100;
    assert Value(name[..2]) == p as int / 10;
  }

  lemma DirNameInjective(p: byte, q: byte)
    requires DirName(p) == DirName(q)
    ensures p == q
  {
  }

  datatype Entry = Entry(name: string, isDirectory: bool)

  /** The greatest priority named by the listed directories, or zero. */
  ghost predicate IsHighest(prio: byte, listing: seq<Entry>) {
    && (forall e :: e in listing && e.isDirectory && IsPriority(e.name) ==> Value(e.name) <= prio as int)
    && (prio > 0 ==> exists e :: e in listing && e.isDirectory && IsPriority(e.name) && Value(e.name) == prio as int)
  }

  method FindHighestPriority(listing: seq<Entry>) returns (prio: byte)
    ensures IsHighest(prio, listing)
  {
    prio := 0;
    var i := 0;
    while i < |listing|
      invariant i <= |listing| && IsHighest(prio, listing[..i])
    {
      var before := prio;
      prio := FindHighest(listing[i].name, listing[i].isDirectory, prio);
      var seen := listing[..i + 1];
      assert seen == listing[..i] + [listing[i]];
      assert listing[i] in seen;
      if prio > 0 && prio == before {
        var e :| e in listing[..i] && e.isDirectory && IsPriority(e.name) && Value(e.name) == prio as int;
        assert e in seen;
      }
      i := i + 1;
    }
    assert listing[..i] == listing;
  }

  /** A listing of the directory of a key. */
  ghost predicate ListsKey(d: Disk, key: string, listing: seq<Entry>) {
    forall e :: e in listing <==> e.isDirectory && exists p: byte :: Slot(key, p) in d.slots && e.name == DirName(p)
  }

  /** A lookup by key alone goes to the key's highest priority. */
  lemma HighestIsMaximum(d: Disk, key: string, listing: seq<Entry>, prio: byte)
    requires ListsKey(d, key, listing) && IsHighest(prio, listing)
    ensures forall p: byte :: Slot(key, p) in d.slots ==> p <= prio
    ensures prio > 0 ==> Slot(key, prio) in d.slots
    ensures prio == 0 ==> forall p: byte :: p > 0 ==> Slot(key, p) !in d.slots
  {
    forall p: byte | Slot(key, p) in d.slots
      ensures p <= prio
    {
      assert Entry(DirName(p), true) in listing;
      DirNameDenotes(p);
    }
    if prio > 0 {
      var e :| e in listing && e.isDirectory && IsPriority(e.name) && Value(e.name) == prio as int;
      var p: byte :| Slot(key, p) in d.slots && e.name == DirName(p);
      DirNameDenotes(p);
    }
  }
}
