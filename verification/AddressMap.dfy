/** From binary keys to hexadecimal names to paths below the cache root. */
module AddressMap {
  import opened CacheTypes
  import opened FileSystem
  import opened Lookup
  import opened Priority

  // ---------- hexadecimal names ----------

  function NibbleToChar(n: nat): char
    requires n < 16
  {
    if n < 10 then ('0' as int + n) as char else ('a' as int + (n - 10)) as char
  }

  function CharToNibble(c: char): nat {
    if '0' <= c <= '9' then c as int - '0' as int
    else if 'a' <= c <= 'f' then c as int - 'a' as int + 10
    else 0
  }

  lemma NibbleRoundTrip(n: nat)
    requires n < 16
    ensures CharToNibble(NibbleToChar(n)) == n && IsHexDigit(NibbleToChar(n))
  {
  }

  /** Two digits per byte, high nibble first. */
  ghost predicate IsHexOf(s: string, data: Bytes) {
    && |s| == 2 * |data|
    && forall i :: 0 <= i < |data| ==>
         s[2 * i] == NibbleToChar(data[i] as int / 16) && s[2 * i + 1] == NibbleToChar(data[i] as int % 16)
  }

  method BinaryToHexString(dest: string, data: Bytes) returns (r: string)
    requires |data| > 0
    ensures |r| == |dest| + 2 * |data| && r[..|dest|] == dest && IsHexOf(r[|dest|..], data)
  {
    r := dest;
    var i := 0;
    while i < |data|
      invariant i <= |data| && |r| == |dest| + 2 * i && r[..|dest|] == dest
      invariant IsHexOf(r[|dest|..], data[..i])
    {
      ghost var done := r[|dest|..];
      r := r + [NibbleToChar(data[i] as int / 16)] + [NibbleToChar(data[i] as int % 16)];
      assert r[|dest|..] == done + [NibbleToChar(data[i] as int / 16), NibbleToChar(data[i] as int % 16)];
      i := i + 1;
    }
    assert data[..i] == data;
  }

  method HexStringToBinary(str: string) returns (dest: Bytes)
    ensures |dest| == |str| / 2
    ensures forall i :: 0 <= i < |dest| ==>
      dest[i] as int == 16 * CharToNibble(str[2 * i]) + CharToNibble(str[2 * i + 1])
    ensures forall data :: IsHexOf(str, data) ==> dest == data
  {
    dest := [];
    var i := 0;
    while i < |str| / 2
      invariant |dest| == i <= |str| / 2
      invariant forall j :: 0 <= j < i ==>
        dest[j] as int == 16 * CharToNibble(str[2 * j]) + CharToNibble(str[2 * j + 1])
    {
      dest := dest + [(16 * CharToNibble(str[2 * i]) + CharToNibble(str[2 * i + 1])) as byte];
      i := i + 1;
    }
    forall data | IsHexOf(str, data)
      ensures dest == data
    {
      forall j | 0 <= j < |data|
        ensures dest[j] == data[j]
      {
        NibbleRoundTrip(data[j] as int / 16);
        NibbleRoundTrip(data[j] as int % 16);
      }
    }
  }

  /** Different byte strings have different names, and every digit is hexadecimal. */
  lemma HexInjective(s: string, a: Bytes, b: Bytes)
    requires IsHexOf(s, a) && IsHexOf(s, b)
    ensures a == b
  {
  }

  /** Names of keys of at least two bytes are long enough for a path. */
  lemma HexIsKey(s: string, data: Bytes)
    requires IsHexOf(s, data) && |data| >= 2
    ensures IsKey(s)
  {
    forall i | 0 <= i < |s|
      ensures IsHexDigit(s[i])
    {
      NibbleRoundTrip(data[i / 2] as int / 16);
      NibbleRoundTrip(data[i / 2] as int % 16);
    }
  }

  predicate IsKey(key: string) {
    |key| >= 4 && forall i :: 0 <= i < |key| ==> IsHexDigit(key[i])
  }

  // ---------- paths ----------

  ghost predicate NoSlash(s: string) {
    '/' !in s
  }

  class Path {
    var path: string
    var isFile: bool
    var dirPartLength: nat

    /** The directory part ends with a slash, and directories are all directory part. */
    ghost predicate Valid()
      reads this
    {
      && 0 < dirPartLength <= |path|
      && path[dirPartLength - 1] == '/'
      && (!isFile ==> dirPartLength == |path|)
    }

    constructor (root: string)
      ensures Valid() && path == root + "/" && !isFile
    {
      path := root + "/";
      isFile := false;
      dirPartLength := |root| + 1;
    }

    constructor Copy(src: Path)
      requires src.Valid()
      ensures Valid() && path == src.path && isFile == src.isFile && dirPartLength == src.dirPartLength
    {
      path, isFile, dirPartLength := src.path, src.isFile, src.dirPartLength;
    }

    /** The longest prefix ending in '/', as long as no file name contained one. */
    method DirStr() returns (s: string)
      requires Valid()
      ensures s == path[..dirPartLength] && s[|s| - 1] == '/'
    {
      if isFile {
        s := path[..dirPartLength];
      } else {
        s := path;
      }
    }

    method AppendHash(s: string, asFile: bool)
      requires Valid()
      modifies this
      ensures Valid()
      ensures old(isFile) || |s| < 3 ==>
        path == old(path) && isFile == old(isFile) && dirPartLength == old(dirPartLength)
      ensures !old(isFile) && |s| >= 3 ==>
        && isFile == asFile
        && path == old(path) + s[..2] + "/" + s[2..] + (if asFile then "" else "/")
        && path[..dirPartLength] == old(path) + s[..2] + "/" + (if asFile then "" else s[2..] + "/")
    {
      if isFile || |s| < 3 {
        return;
      }
      path := path + s[..2];
      path := path + "/";
      path := path + s[2..];
      if !asFile {
        path := path + "/";
        dirPartLength := |path|;
      } else {
        isFile := true;
        dirPartLength := dirPartLength + 3;
        assert path[..dirPartLength] == old(path) + s[..2] + "/";
      }
    }

    method AppendPart(s: string, asFile: bool)
      requires Valid()
      modifies this
      ensures Valid()
      ensures old(isFile) || s == "" ==>
        path == old(path) && isFile == old(isFile) && dirPartLength == old(dirPartLength)
      ensures !old(isFile) && s != "" ==>
        && isFile == asFile
        && path == old(path) + s + (if asFile then "" else "/")
        && path[..dirPartLength] == if asFile then old(path) else path
    {
      if isFile || s == "" {
        return;
      }
      path := path + s;
      if !asFile {
        path := path + "/";
        dirPartLength := |path|;
      } else {
        isFile := true;
      }
    }
  }

  // ---------- where each file of the cache is ----------

  predicate Addressable(p: FilePath) {
    match p
    case KeyLink(slot, source) => IsKey(slot.key) && ValidHash(source)
    case SrcFile(source, Ref) => ValidHash(source)
    case SrcFile(source, Out(format, hash)) => ValidHash(source) && PlainFormat(format) && ValidHash(hash)
    case ObjFile(hash) => ValidHash(hash)
  }

  /** The path components below the cache root. */
  function Components(p: FilePath): seq<string>
    requires Addressable(p)
  {
    match p
    case KeyLink(slot, source) => [slot.key[..2], slot.key[2..], DirName(slot.prio), "src:" + source.hex]
    case SrcFile(source, name) => [".src", source.hex[..2], source.hex[2..], Render(name)]
    case ObjFile(hash) => [".obj", hash.hex[..2], hash.hex[2..]]
  }

  function Join(parts: seq<string>): string
    requires parts != []
  {
    if |parts| == 1 then parts[0] else parts[0] + "/" + Join(parts[1..])
  }

  /** `key/prio/src:source` below the root, put together as the cache manager does. */
  method LocateKeyLink(root: string, slot: Slot, source: Hash) returns (r: Path)
    requires Addressable(KeyLink(slot, source))
    ensures fresh(r) && r.Valid() && r.path == root + "/" + Join(Components(KeyLink(slot, source)))
    ensures r.path == root + "/" + (slot.key[..2] + "/" + slot.key[2..] + "/" + DirName(slot.prio) + "/" +
                                    ("src:" + source.hex))
    ensures r.path[..r.dirPartLength] == root + "/" + Join([slot.key[..2], slot.key[2..], DirName(slot.prio), ""])
  {
    r := new Path(root);
    r.AppendHash(slot.key, false);
    r.AppendPart(DirName(slot.prio), false);
    ghost var dir := r.path;
    r.AppendPart("src:" + source.hex, true);
    JoinFour(slot.key[..2], slot.key[2..], DirName(slot.prio), "src:" + source.hex);
    JoinFour(slot.key[..2], slot.key[2..], DirName(slot.prio), "");
    assert dir == root + "/" + (slot.key[..2] + "/" + slot.key[2..] + "/" + DirName(slot.prio) + "/");
  }

  method LocateSrcFile(root: string, source: Hash, name: SrcName) returns (r: Path)
    requires Addressable(SrcFile(source, name))
    ensures fresh(r) && r.Valid() && r.path == root + "/" + Join(Components(SrcFile(source, name)))
    ensures r.path == root + "/" + (".src" + "/" + source.hex[..2] + "/" + source.hex[2..] + "/" +
                                    match name { case Ref => ".ref" case Out(format, hash) => format + ":" + hash.hex })
    ensures r.path[..r.dirPartLength] == root + "/" + Join([".src", source.hex[..2], source.hex[2..], ""])
  {
    r := new Path(root + "/" + ".src");
    r.AppendHash(source.hex, false);
    ghost var dir := r.path;
    r.AppendPart(Render(name), true);
    JoinFour(".src", source.hex[..2], source.hex[2..], Render(name));
    JoinFour(".src", source.hex[..2], source.hex[2..], "");
    assert dir == root + "/" + (".src" + "/" + source.hex[..2] + "/" + source.hex[2..] + "/");
  }

  method LocateObject(root: string, hash: Hash) returns (r: Path)
    requires Addressable(ObjFile(hash))
    ensures fresh(r) && r.Valid() && r.path == root + "/" + Join(Components(ObjFile(hash)))
    ensures r.path == root + "/" + (".obj" + "/" + hash.hex[..2] + "/" + hash.hex[2..])
    ensures r.path[..r.dirPartLength] == root + "/" + Join([".obj", hash.hex[..2], ""])
  {
    r := new Path(root + "/" + ".obj");
    r.AppendHash(hash.hex, true);
    JoinThree(".obj", hash.hex[..2], hash.hex[2..]);
    JoinThree(".obj", hash.hex[..2], "");
    assert r.path == root + "/" + (".obj" + "/" + hash.hex[..2] + "/" + hash.hex[2..]);
    assert r.path[..r.dirPartLength] == root + "/" + (".obj" + "/" + hash.hex[..2] + "/");
  }

  lemma JoinThree(a: string, b: string, c: string)
    ensures Join([a, b, c]) == a + "/" + b + "/" + c
  {
    assert [a, b, c][1..] == [b, c] && [b, c][1..] == [c];
    assert Join([b, c]) == b + "/" + c;
    assert a + "/" + (b + "/" + c) == a + "/" + b + "/" + c;
  }

  lemma JoinFour(a: string, b: string, c: string, e: string)
    ensures Join([a, b, c, e]) == a + "/" + b + "/" + c + "/" + e
  {
    assert [a, b, c, e][1..] == [b, c, e];
    JoinThree(b, c, e);
    assert a + "/" + (b + "/" + c + "/" + e) == a + "/" + b + "/" + c + "/" + e;
  }

  // ---------- different files, different paths ----------

  ghost predicate Slashless(parts: seq<string>) {
    forall i :: 0 <= i < |parts| ==> NoSlash(parts[i])
  }

  /** The part before the first slash, and what follows it. */
  lemma SplitAtSlash(a: string, x: string, b: string, y: string)
    requires NoSlash(a) && NoSlash(b) && a + "/" + x == b + "/" + y
    ensures a == b && x == y
  {
    var s := a + "/" + x;
    assert forall i :: 0 <= i < |a| ==> s[i] == a[i];
    assert forall i :: 0 <= i < |b| ==> s[i] == b[i];
    assert s[|a|] == '/' && s[|b|] == '/';
    assert a == s[..|a|] && b == s[..|b|];
    assert x == s[|a| + 1..] && y == s[|b| + 1..];
  }

  lemma JoinSlash(parts: seq<string>)
    requires parts != [] && Slashless(parts)
    ensures '/' in Join(parts) <==> |parts| > 1
  {
  }

  lemma {:induction false} JoinInjective(xs: seq<string>, ys: seq<string>)
    requires xs != [] && ys != [] && Slashless(xs) && Slashless(ys) && Join(xs) == Join(ys)
    ensures xs == ys
  {
    JoinSlash(xs);
    JoinSlash(ys);
    if |xs| > 1 {
      SplitAtSlash(xs[0], Join(xs[1..]), ys[0], Join(ys[1..]));
      JoinInjective(xs[1..], ys[1..]);
      assert xs == [xs[0]] + xs[1..] && ys == [ys[0]] + ys[1..];
    } else {
      assert xs == [xs[0]] && ys == [ys[0]];
    }
  }

  lemma ComponentsSlashless(p: FilePath)
    requires Addressable(p)
    ensures Slashless(Components(p))
  {
  }

  /** No two files of the cache share a path, within and across its three parts. */
  lemma PathsInjective(p: FilePath, q: FilePath)
    requires Addressable(p) && Addressable(q) && Join(Components(p)) == Join(Components(q))
    ensures p == q
  {
    ComponentsSlashless(p);
    ComponentsSlashless(q);
    JoinInjective(Components(p), Components(q));
    SameComponents(p, q);
  }

  /** The three parts of the cache are told apart by the first component. */
  lemma PartOf(p: FilePath)
    requires Addressable(p)
    ensures Components(p)[0] == ".src" <==> p.SrcFile?
    ensures Components(p)[0] == ".obj" <==> p.ObjFile?
  {
  }

  lemma SameComponents(p: FilePath, q: FilePath)
    requires Addressable(p) && Addressable(q) && Components(p) == Components(q)
    ensures p == q
  {
    PartOf(p);
    PartOf(q);
    var c, e := Components(p), Components(q);
    assert c[0] == e[0] && c[1] == e[1] && c[2] == e[2];
    match p
    case KeyLink(slot, source) =>
      assert slot.key == slot.key[..2] + slot.key[2..] && q.slot.key == q.slot.key[..2] + q.slot.key[2..];
      DirNameInjective(slot.prio, q.slot.prio);
      assert c[3][4..] == source.hex && e[3][4..] == q.source.hex;
    case SrcFile(source, name) =>
      assert source.hex == source.hex[..2] + source.hex[2..] && q.source.hex == q.source.hex[..2] + q.source.hex[2..];
      assert c[3] == e[3];
      SameSrcName(name, q.name);
    case ObjFile(hash) =>
      assert hash.hex == hash.hex[..2] + hash.hex[2..] && q.hash.hex == q.hash.hex[..2] + q.hash.hex[2..];
  }

  lemma HasColon(n: SrcName)
    ensures ':' in Render(n) <==> n.Out?
  {
  }

  lemma SameSrcName(m: SrcName, n: SrcName)
    requires m.Out? ==> PlainFormat(m.format) && ValidHash(m.hash)
    requires n.Out? ==> PlainFormat(n.format) && ValidHash(n.hash)
    requires Render(m) == Render(n)
    ensures m == n
  {
    HasColon(m);
    HasColon(n);
    if m.Out? {
      RenderInjective(m.format, m.hash.hex, n.format, n.hash.hex);
    }
  }
}
