/** Finding a picture for a key: directory names, and what a lookup can answer. */
module Lookup {
  import opened CacheTypes
  import opened FileSystem
  import opened CacheInvariant
  import opened Accounting
  import opened Collection

  // ---------- names inside a source directory ----------

  function Render(n: SrcName): string {
    match n
    case Ref => ".ref"
    case Out(format, hash) => format + ":" + hash.hex
  }

  predicate IsHexDigit(c: char) {
    '0' <= c <= '9' || 'a' <= c <= 'f'
  }

  /** The text of an MD5 digest. */
  predicate ValidHash(h: Hash) {
    |h.hex| == 32 && forall i :: 0 <= i < |h.hex| ==> IsHexDigit(h.hex[i])
  }

  ghost predicate IsDigest(md5: Bytes -> Hash) {
    forall bytes :: ValidHash(md5(bytes))
  }

  /** A name split at its last ':' is determined by its text. */
  lemma RenderInjective(f: string, h: string, g: string, k: string)
    requires ':' !in h && ':' !in k && f + ":" + h == g + ":" + k
    ensures f == g && h == k
  {
    NoLaterColon(f, h);
    NoLaterColon(g, k);
    var s := f + ":" + h;
    assert s[|f|] == ':' && (g + ":" + k)[|g|] == ':';
    assert f == s[..|f|] && g == s[..|g|];
    assert h == s[|f| + 1..] && k == s[|g| + 1..];
  }

  lemma NoLaterColon(f: string, h: string)
    requires ':' !in h
    ensures forall i :: |f| < i < |f + ":" + h| ==> (f + ":" + h)[i] != ':'
  {
  }

  /** The characters of a C string, its terminator, and whatever follows in memory. */
  function CharAt(name: string, i: nat, beyond: char): char
    requires i <= |name| + 1
  {
    if i < |name| then name[i] else if i == |name| then '\0' else beyond
  }

  /** How a directory entry is recognised as an output of a format. */
  predicate Matches(name: string, format: string, beyond: char) {
    && format <= name
    && (CharAt(name, |format|, beyond) == ':' || CharAt(name, |format| + 1, beyond) == '\0')
  }

  /** A format name as it is configured: part of a file name, without the separator. */
  predicate PlainFormat(format: string) {
    ':' !in format && '\0' !in format && '/' !in format
  }

  /**
   * For every requested format: an entry is taken for it exactly when it is
   * an output of that format, or when the request is the entry's whole name,
   * possibly without its last character.
   */
  lemma MatchesOutput(stored: string, hash: Hash, format: string, beyond: char)
    requires PlainFormat(stored) && ValidHash(hash)
    ensures var name := Render(Out(stored, hash));
      Matches(name, format, beyond) <==>
        (format == stored || format == name[..|name| - 1] || (format == name && beyond == '\0'))
  {
  }

  /** The reference file is taken for an output of the format ".re". */
  lemma MatchesRef(format: string, beyond: char)
    ensures Matches(Render(Ref), format, beyond) <==>
      (format == ".re" || (format == ".ref" && beyond == '\0'))
  {
  }

  /** A format a client may ask for without being misled. */
  predicate Unambiguous(format: string) {
    ':' !in format && format != ".re" && format != ".ref"
  }

  lemma MatchesExactly(n: SrcName, format: string, beyond: char)
    requires Unambiguous(format) && (n.Out? ==> PlainFormat(n.format) && ValidHash(n.hash))
    ensures Matches(Render(n), format, beyond) <==> n.Out? && n.format == format
  {
    match n
    case Ref => MatchesRef(format, beyond);
    case Out(stored, hash) =>
      MatchesOutput(stored, hash, format, beyond);
      var name := Render(n);
      assert name[|stored|] == ':';
      assert name[..|name| - 1][|stored|] == ':';
  }

  // ---------- the search in a directory listing ----------

  /** The first listed entry that matches. */
  function FirstMatch(listing: seq<SrcName>, format: string, beyond: char): Option<SrcName> {
    if listing == [] then None
    else if Matches(Render(listing[0]), format, beyond) then Some(listing[0])
    else FirstMatch(listing[1..], format, beyond)
  }

  lemma {:induction false} FirstMatchMatches(listing: seq<SrcName>, format: string, beyond: char)
    ensures match FirstMatch(listing, format, beyond)
      case Some(n) => n in listing && Matches(Render(n), format, beyond)
      case None => forall n :: n in listing ==> !Matches(Render(n), format, beyond)
  {
    if listing != [] {
      FirstMatchMatches(listing[1..], format, beyond);
      assert forall n :: n in listing <==> n == listing[0] || n in listing[1..];
    }
  }

  ghost predicate Lists(listing: seq<SrcName>, names: set<SrcName>) {
    forall n :: n in listing <==> n in names
  }

  // ---------- answers ----------

  datatype Answer =
    | Found(hash: string, data: Option<Bytes>)
    | KeyUnknown | IsPending | FormatNotSupported | Orphaned | LookupIoError
    | Uncaught  // an exception leaves the lookup

  function NamesIn(d: Disk, source: Hash): set<SrcName> {
    set p | p in d.files && p.SrcFile? && p.source == source :: p.name
  }

  /** `listing` is the linked source's directory, in any order. */
  ghost predicate ListsSource(d: Disk, slot: Slot, listing: seq<SrcName>) {
    match CurrentLink(d, slot)
    case None => true
    case Some(source) => Lists(listing, NamesIn(d, source))
  }

  ghost predicate HasName(names: set<SrcName>, text: string) {
    exists n :: n in names && Render(n) == text
  }

  /**
   * What a lookup answers, given the order in which the source directory is
   * listed.  `busy` are the sources being added, converted or waiting.
   */
  ghost function DoLookup(d: Disk, slot: Slot, hint: string, format: string, busy: set<Hash>,
                          listing: seq<SrcName>, beyond: char, readable: bool): Answer
    requires FsInv(d)
    requires ListsSource(d, slot, listing)
  {
    if slot !in d.slots then
      KeyUnknown
    else
      match CurrentLink(d, slot)
      case None => Orphaned
      case Some(source) =>
        if source !in d.srcDirs then
          if source in busy then IsPending else Orphaned
        else if hint != "" && HasName(NamesIn(d, source), format + ":" + hint) then
          Found(hint, None)
        else
          match FirstMatch(listing, format, beyond)
          case None => if source in busy then IsPending else FormatNotSupported
          case Some(n) =>
            FirstMatchMatches(listing, format, beyond);
            assert n in NamesIn(d, source);
            ReadOutput(d, source, n, format, readable)
  }

  function ReadOutput(d: Disk, source: Hash, n: SrcName, format: string, readable: bool): Answer
    requires SrcFile(source, n) in d.files && d.files[SrcFile(source, n)] in d.inodes
  {
    if !readable then
      LookupIoError
    else if |Render(n)| <= |format| then
      Uncaught
    else
      Found(Render(n)[|format| + 1..], Some(d.At(SrcFile(source, n)).content))
  }

  /** Names the converter stores: plain formats and digests. */
  ghost predicate PlainNames(d: Disk) {
    forall s, f, h :: SrcFile(s, Out(f, h)) in d.files ==> PlainFormat(f) && ValidHash(h)
  }

  /** The missing-directory branch of a lookup cannot be reached. */
  lemma SourceNeverMissing(d: Disk, slot: Slot)
    requires CacheInv(d) && CurrentLink(d, slot).Some?
    ensures slot in d.slots && CurrentLink(d, slot).value in d.srcDirs
  {
  }

  /** A hint is confirmed exactly when that picture is stored for the source in that format. */
  lemma HintConfirmed(d: Disk, source: Hash, format: string, hint: string)
    requires PlainNames(d)
    ensures HasName(NamesIn(d, source), format + ":" + hint) <==>
      SrcFile(source, Out(format, Hash(hint))) in d.files
  {
    var text := format + ":" + hint;
    assert text[|format|] == ':' && forall i :: 0 <= i < 4 ==> Render(Ref)[i] != ':';
    forall n | n in NamesIn(d, source) && Render(n) == text
      ensures n == Out(format, Hash(hint))
    {
      match n
      case Ref =>
      case Out(f, h) => OneColon(f, h.hex, format, hint);
    }
    if SrcFile(source, Out(format, Hash(hint))) in d.files {
      assert Out(format, Hash(hint)) in NamesIn(d, source);
      assert Render(Out(format, Hash(hint))) == text;
    }
  }

  /** A name with a single ':' can be split in one way only, whatever it is compared with. */
  lemma OneColon(f: string, h: string, g: string, k: string)
    requires ':' !in f && ':' !in h && f + ":" + h == g + ":" + k
    ensures f == g && h == k
  {
    var s := f + ":" + h;
    assert forall i :: 0 <= i < |s| && i != |f| ==> s[i] != ':';
    assert (g + ":" + k)[|g|] == ':';
    assert f == s[..|f|] && g == s[..|g|];
    assert h == s[|f| + 1..] && k == s[|g| + 1..];
  }

  /** The output is stored for the slot's source, under its own hash. */
  ghost predicate StoredFor(md5: Bytes -> Hash, d: Disk, slot: Slot, format: string, hash: string)
    requires FsInv(d)
  {
    && CurrentLink(d, slot).Some?
    && var p := SrcFile(CurrentLink(d, slot).value, Out(format, Hash(hash)));
    && p in d.files && md5(d.At(p).content) == Hash(hash)
  }

  /**
   * What a lookup returns is stored for the key's source in exactly the
   * requested format, under the hash of its bytes: a confirmed hint is that
   * hash, and bytes come back with it.
   */
  lemma FoundIsAddressed(md5: Bytes -> Hash, d: Disk, slot: Slot, hint: string, format: string, busy: set<Hash>,
                         listing: seq<SrcName>, beyond: char, readable: bool)
    requires CacheInv(d) && ContentAddressed(md5, d) && PlainNames(d) && Unambiguous(format)
    requires ListsSource(d, slot, listing)
    ensures match DoLookup(d, slot, hint, format, busy, listing, beyond, readable)
      case Found(hash, None) => hash == hint && StoredFor(md5, d, slot, format, hash)
      case Found(hash, Some(bytes)) => md5(bytes) == Hash(hash) && StoredFor(md5, d, slot, format, hash)
      case Uncaught => false
      case _ => true
  {
    if CurrentLink(d, slot).Some? {
      var source := CurrentLink(d, slot).value;
      if hint != "" && HasName(NamesIn(d, source), format + ":" + hint) {
        HintConfirmed(d, source, format, hint);
        OutputsAddressed(md5, d, source, format, Hash(hint));
      } else {
        ReadIsAddressed(md5, d, source, format, listing, beyond, readable);
      }
    }
  }

  lemma ReadIsAddressed(md5: Bytes -> Hash, d: Disk, source: Hash, format: string,
                        listing: seq<SrcName>, beyond: char, readable: bool)
    requires CacheInv(d) && ContentAddressed(md5, d) && PlainNames(d) && Unambiguous(format)
    requires Lists(listing, NamesIn(d, source))
    ensures match FirstMatch(listing, format, beyond)
      case None => true
      case Some(n) =>
        && SrcFile(source, n) in d.files && n.Out? && n.format == format
        && md5(d.At(SrcFile(source, n)).content) == n.hash
        && ReadOutput(d, source, n, format, readable) ==
             if readable then Found(n.hash.hex, Some(d.At(SrcFile(source, n)).content)) else LookupIoError
  {
    FirstMatchMatches(listing, format, beyond);
    match FirstMatch(listing, format, beyond)
    case None =>
    case Some(n) =>
      assert n in NamesIn(d, source);
      MatchesExactly(n, format, beyond);
      OutputsAddressed(md5, d, source, n.format, n.hash);
      assert Render(n)[|format| + 1..] == n.hash.hex;
  }

  /** Whether a format is answered depends only on whether the source has an output for it. */
  lemma FoundIffStored(d: Disk, slot: Slot, source: Hash, format: string, busy: set<Hash>,
                       listing: seq<SrcName>, beyond: char)
    requires CacheInv(d) && PlainNames(d) && Unambiguous(format)
    requires KeyLink(slot, source) in d.files && Lists(listing, NamesIn(d, source))
    ensures CurrentLink(d, slot) == Some(source)
    ensures DoLookup(d, slot, "", format, busy, listing, beyond, true).Found? <==>
      exists h :: SrcFile(source, Out(format, h)) in d.files
  {
    LinkedSourceExists(d, slot, source);
    CurrentLinkIs(d, slot, source);
    FirstMatchMatches(listing, format, beyond);
    forall n | n in NamesIn(d, source)
      ensures Matches(Render(n), format, beyond) <==> n.Out? && n.format == format
    {
      MatchesExactly(n, format, beyond);
    }
    if h :| SrcFile(source, Out(format, h)) in d.files {
      assert Out(format, h) in NamesIn(d, source);
    }
  }

  // ---------- exactly when each answer is given ----------

  /** Without a directory the key is unknown, and without a link it is orphaned. */
  lemma UnlinkedAnswers(d: Disk, slot: Slot, hint: string, format: string, busy: set<Hash>,
                        listing: seq<SrcName>, beyond: char, readable: bool)
    requires CacheInv(d) && ListsSource(d, slot, listing)
    ensures var a := DoLookup(d, slot, hint, format, busy, listing, beyond, readable);
      && (a == KeyUnknown <==> slot !in d.slots)
      && (a == Orphaned <==> slot in d.slots && forall s :: KeyLink(slot, s) !in d.files)
  {
    if CurrentLink(d, slot).Some? {
      LinkedSourceExists(d, slot, CurrentLink(d, slot).value);
    }
  }

  /** The source has an output of the format. */
  ghost predicate Stored(d: Disk, source: Hash, format: string) {
    exists h :: SrcFile(source, Out(format, h)) in d.files
  }

  /** The picture that the client asks about is stored. */
  ghost predicate Confirmed(d: Disk, source: Hash, format: string, hint: string) {
    hint != "" && SrcFile(source, Out(format, Hash(hint))) in d.files
  }

  /** A miss, for every format: no entry of the source matches, and the answer depends on whether it is busy. */
  lemma MissAnswers(d: Disk, slot: Slot, source: Hash, hint: string, format: string, busy: set<Hash>,
                    listing: seq<SrcName>, beyond: char, readable: bool)
    requires CacheInv(d) && KeyLink(slot, source) in d.files && Lists(listing, NamesIn(d, source))
    ensures CurrentLink(d, slot) == Some(source)
    ensures var a := DoLookup(d, slot, hint, format, busy, listing, beyond, readable);
      var miss := !(hint != "" && HasName(NamesIn(d, source), format + ":" + hint)) &&
                  forall n :: n in NamesIn(d, source) ==> !Matches(Render(n), format, beyond);
      && (a == IsPending <==> miss && source in busy)
      && (a == FormatNotSupported <==> miss && source !in busy)
  {
    LinkedSourceExists(d, slot, source);
    CurrentLinkIs(d, slot, source);
    FirstMatchMatches(listing, format, beyond);
  }

  /** For a format that misleads nobody, exactly when a linked key gets each of the other answers. */
  lemma LinkedAnswers(d: Disk, slot: Slot, source: Hash, hint: string, format: string, busy: set<Hash>,
                      listing: seq<SrcName>, beyond: char, readable: bool)
    requires CacheInv(d) && PlainNames(d) && Unambiguous(format)
    requires KeyLink(slot, source) in d.files && Lists(listing, NamesIn(d, source))
    ensures CurrentLink(d, slot) == Some(source)
    ensures var a := DoLookup(d, slot, hint, format, busy, listing, beyond, readable);
      && (a == Found(hint, None) <==> Confirmed(d, source, format, hint))
      && (a.Found? && a.data.Some? <==> !Confirmed(d, source, format, hint) && Stored(d, source, format) && readable)
      && (a == LookupIoError <==> !Confirmed(d, source, format, hint) && Stored(d, source, format) && !readable)
      && (a == IsPending <==> !Confirmed(d, source, format, hint) && !Stored(d, source, format) && source in busy)
      && (a == FormatNotSupported <==>
            !Confirmed(d, source, format, hint) && !Stored(d, source, format) && source !in busy)
      && a != Uncaught
  {
    LinkedSourceExists(d, slot, source);
    CurrentLinkIs(d, slot, source);
    HintConfirmed(d, source, format, hint);
    MatchIffStored(d, source, format, listing, beyond);
    match FirstMatch(listing, format, beyond)
    case None =>
    case Some(n) => assert |Render(n)| > |format|;
  }

  /** The search finds something exactly if there is an output of the format, and then that is what it finds. */
  lemma MatchIffStored(d: Disk, source: Hash, format: string, listing: seq<SrcName>, beyond: char)
    requires PlainNames(d) && Unambiguous(format) && Lists(listing, NamesIn(d, source))
    ensures match FirstMatch(listing, format, beyond)
      case None => !Stored(d, source, format)
      case Some(n) => Stored(d, source, format) && n.Out? && n.format == format && SrcFile(source, n) in d.files
  {
    FirstMatchMatches(listing, format, beyond);
    forall n | n in NamesIn(d, source)
      ensures Matches(Render(n), format, beyond) <==> n.Out? && n.format == format
    {
      MatchesExactly(n, format, beyond);
    }
    match FirstMatch(listing, format, beyond)
    case None =>
      forall h
        ensures SrcFile(source, Out(format, h)) !in d.files
      {
        assert SrcFile(source, Out(format, h)) in d.files ==> Out(format, h) in NamesIn(d, source);
      }
    case Some(n) =>
      assert n in NamesIn(d, source);
      assert SrcFile(source, Out(format, n.hash)) in d.files;
  }

  // ---------- lookups depend on the view only ----------

  lemma SameNames(d: Disk, e: Disk, source: Hash)
    requires FsInv(d) && FsInv(e) && FilesOf(d, source) == FilesOf(e, source)
    ensures NamesIn(d, source) == NamesIn(e, source)
  {
    assert forall n :: SrcFile(source, n) in d.files <==> SrcFile(source, n) in FilesOf(d, source);
    assert forall n :: SrcFile(source, n) in e.files <==> SrcFile(source, n) in FilesOf(e, source);
  }

  lemma SameViewSameAnswer(d: Disk, e: Disk, slot: Slot, hint: string, format: string, busy: set<Hash>,
                           listing: seq<SrcName>, beyond: char, readable: bool)
    requires CacheInv(d) && CacheInv(e) && View(d, slot) == View(e, slot)
    requires slot in d.slots <==> slot in e.slots
    requires ListsSource(d, slot, listing)
    ensures ListsSource(e, slot, listing)
    ensures DoLookup(d, slot, hint, format, busy, listing, beyond, readable) ==
            DoLookup(e, slot, hint, format, busy, listing, beyond, readable)
  {
    match CurrentLink(d, slot)
    case None =>
    case Some(source) =>
      LinkedSourceExists(d, slot, source);
      LinkedSourceExists(e, slot, source);
      SameNames(d, e, source);
      FirstMatchMatches(listing, format, beyond);
      match FirstMatch(listing, format, beyond)
      case None =>
      case Some(n) =>
        assert n in NamesIn(d, source) && n in NamesIn(e, source);
        assert FilesOf(d, source)[SrcFile(source, n)] == FilesOf(e, source)[SrcFile(source, n)];
  }

  /** Some order of the source's directory makes the lookup answer `a`. */
  ghost predicate CanAnswer(d: Disk, slot: Slot, hint: string, format: string, busy: set<Hash>, beyond: char,
                            readable: bool, a: Answer)
    requires FsInv(d)
  {
    exists listing :: ListsSource(d, slot, listing) &&
      DoLookup(d, slot, hint, format, busy, listing, beyond, readable) == a
  }

  lemma SameViewSameAnswers(d: Disk, e: Disk, slot: Slot, hint: string, format: string, busy: set<Hash>, beyond: char,
                            readable: bool, a: Answer)
    requires CacheInv(d) && CacheInv(e) && View(d, slot) == View(e, slot)
    requires slot in d.slots <==> slot in e.slots
    ensures CanAnswer(d, slot, hint, format, busy, beyond, readable, a) ==>
      CanAnswer(e, slot, hint, format, busy, beyond, readable, a)
  {
    if CanAnswer(d, slot, hint, format, busy, beyond, readable, a) {
      var listing :|
        ListsSource(d, slot, listing) && DoLookup(d, slot, hint, format, busy, listing, beyond, readable) == a;
      SameViewSameAnswer(d, e, slot, hint, format, busy, listing, beyond, readable);
    }
  }

  /**
   * Garbage collection is invisible to lookups: for every key that survives a
   * round, at any thresholds, exactly the same answers are possible as before.
   */
  lemma RoundPreservesAnswers(d: Disk, streams: Timespec, sources: Timespec, objects: Timespec,
                              slot: Slot, hint: string, format: string, busy: set<Hash>, beyond: char,
                            readable: bool, a: Answer)
    requires CacheInv(d) && slot.key in Round(d, streams, sources, objects).keyDirs
    ensures CacheInv(Round(d, streams, sources, objects))
    ensures CanAnswer(Round(d, streams, sources, objects), slot, hint, format, busy, beyond, readable, a) <==>
            CanAnswer(d, slot, hint, format, busy, beyond, readable, a)
  {
    var e := Round(d, streams, sources, objects);
    RoundPreservesViews(d, streams, sources, objects, slot);
    SameViewSameAnswers(d, e, slot, hint, format, busy, beyond, readable, a);
    SameViewSameAnswers(e, d, slot, hint, format, busy, beyond, readable, a);
  }
}
