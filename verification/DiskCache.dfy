/**
 The disk cache: one database row and one file per URL, least recently used entries evicted first.

 Every operation is one step and its database and file calls succeed. The hash of a URL is any injective
 function to strings of at least two characters. Times are clock readings in seconds.
 */
module DiskCache {
  import opened Common

  type Hash = string -> string
  type Headers = map<string, string>
  type Content = seq<byte>

  datatype Row = Row(url: string, size: nat, lastAccess: int, path: string, headers: Headers, cachedAt: int)

  datatype Disk = Disk(rows: map<string, Row>, files: map<string, Content>)

  const EMPTY: Disk := Disk(map[], map[])

  ghost predicate IsHash(hash: Hash) {
    && (forall u :: |hash(u)| >= 2)
    && (forall u, v :: hash(u) == hash(v) ==> u == v)
  }

  /** Files are spread over directories named by the first two characters of the hash. */
  function PathOf(h: string): (p: string)
    requires |h| >= 2
    ensures |p| >= 3 && p[3..] == h
  {
    h[..2] + "/" + h
  }

  lemma PathLayout(h: string)
    requires |h| >= 2
    ensures PathOf(h) == [h[0], h[1], '/'] + h
  {
    assert h[..2] == [h[0], h[1]];
  }

  // ---- sizes ------------------------------------------------------------------------------------

  ghost function Total(rows: map<string, Row>): nat {
    if rows == map[] then 0
    else
      var h :| h in rows;
      rows[h].size + Total(rows - {h})
  }

  lemma {:induction false} TotalWithout(rows: map<string, Row>, h: string)
    requires h in rows
    ensures Total(rows) == rows[h].size + Total(rows - {h})
    decreases |rows|
  {
    var g :| g in rows && Total(rows) == rows[g].size + Total(rows - {g});
    if g != h {
      TotalWithout(rows - {g}, h);
      TotalWithout(rows - {h}, g);
      assert rows - {g} - {h} == rows - {h} - {g};
    }
  }

  lemma {:induction false} TotalOfPart(part: map<string, Row>, rows: map<string, Row>)
    requires forall h :: h in part ==> h in rows && rows[h].size == part[h].size
    ensures Total(part) <= Total(rows)
    decreases |part|
  {
    if part != map[] {
      var h :| h in part;
      TotalWithout(part, h);
      TotalWithout(rows, h);
      TotalOfPart(part - {h}, rows - {h});
    }
  }

  lemma TotalAtMostOne(rows: map<string, Row>, h: string)
    requires h in rows && forall g :: g in rows ==> g == h
    ensures Total(rows) == rows[h].size
  {
  }

  ghost function Bytes(files: map<string, Content>): nat {
    if files == map[] then 0
    else
      var p :| p in files;
      |files[p]| + Bytes(files - {p})
  }

  // ---- single entries ---------------------------------------------------------------------------

  function Paths(rows: map<string, Row>, hs: set<string>): set<string> {
    set h | h in hs && h in rows :: rows[h].path
  }

  /** Without the rows in `hs` and their files. */
  function Cleared(d: Disk, hs: set<string>): Disk {
    Disk(d.rows - hs, d.files - Paths(d.rows, hs))
  }

  lemma ClearTwice(d: Disk, hs: set<string>, h: string)
    ensures Cleared(Cleared(d, hs), {h}) == Cleared(d, hs + {h})
  {
  }

  ghost predicate RowOk(hash: Hash, d: Disk, h: string)
    requires h in d.rows
  {
    && |h| >= 2 && h == hash(d.rows[h].url) && d.rows[h].path == PathOf(h)
    && (PathOf(h) in d.files ==> d.rows[h].size == |d.files[PathOf(h)]|)
  }

  ghost predicate FileOk(d: Disk, p: string) {
    |p| >= 3 && p[3..] in d.rows && d.rows[p[3..]].path == p
  }

  /** Every row names its own file, and no file is left without a row. */
  ghost predicate Inv(hash: Hash, d: Disk) {
    && (forall h :: h in d.rows ==> RowOk(hash, d, h))
    && (forall p :: p in d.files ==> FileOk(d, p))
  }

  lemma ClearedKeeps(hash: Hash, d: Disk, hs: set<string>)
    requires Inv(hash, d)
    ensures Inv(hash, Cleared(d, hs))
  {
  }

  /** What is on disk never exceeds what the database accounts for. */
  lemma {:induction false} BytesWithinTotal(hash: Hash, d: Disk)
    requires Inv(hash, d)
    ensures Bytes(d.files) <= Total(d.rows)
    decreases |d.files|
  {
    if d.files != map[] {
      var p :| p in d.files && Bytes(d.files) == |d.files[p]| + Bytes(d.files - {p});
      assert FileOk(d, p);
      var h := p[3..];
      assert RowOk(hash, d, h);
      ClearedKeeps(hash, d, {h});
      assert Cleared(d, {h}).files == d.files - {p};
      BytesWithinTotal(hash, Cleared(d, {h}));
      TotalWithout(d.rows, h);
    }
  }

  // ---- eviction ---------------------------------------------------------------------------------

  predicate IsOldest(rows: map<string, Row>, h: string)
    requires h in rows
  {
    forall g :: g in rows ==> rows[h].lastAccess <= rows[g].lastAccess
  }

  /** The eviction loop may remove `victims`, in this order; ties are broken arbitrarily. */
  ghost predicate CanEvict(rows: map<string, Row>, victims: seq<string>, maxSize: nat)
    decreases |victims|
  {
    victims == []
    || (&& Total(rows) > maxSize && victims[0] in rows && IsOldest(rows, victims[0])
        && CanEvict(rows - {victims[0]}, victims[1..], maxSize))
  }

  /** It may remove them and then stop. */
  ghost predicate IsEviction(rows: map<string, Row>, victims: seq<string>, maxSize: nat) {
    CanEvict(rows, victims, maxSize) && Total(rows - Set(victims)) <= maxSize
  }

  function Set(victims: seq<string>): set<string> {
    set h | h in victims
  }

  lemma RemoveTwice(rows: map<string, Row>, victims: seq<string>)
    requires victims != []
    ensures rows - {victims[0]} - Set(victims[1..]) == rows - Set(victims)
  {
  }

  lemma {:induction false} EvictOneMore(rows: map<string, Row>, victims: seq<string>, maxSize: nat, h: string)
    requires CanEvict(rows, victims, maxSize) && Total(rows - Set(victims)) > maxSize
    requires h in rows - Set(victims) && IsOldest(rows - Set(victims), h)
    ensures CanEvict(rows, victims + [h], maxSize)
    decreases |victims|
  {
    if victims == [] {
      assert rows - Set(victims) == rows;
      assert (victims + [h])[1..] == [];
    } else {
      RemoveTwice(rows, victims);
      EvictOneMore(rows - {victims[0]}, victims[1..], maxSize, h);
      assert (victims + [h])[1..] == victims[1..] + [h];
    }
  }

  lemma {:induction false} VictimsAreOldest(rows: map<string, Row>, victims: seq<string>, maxSize: nat)
    requires CanEvict(rows, victims, maxSize)
    ensures forall h :: h in victims ==> h in rows
    ensures forall i, j :: 0 <= i < j < |victims| ==>
      victims[i] != victims[j] && rows[victims[i]].lastAccess <= rows[victims[j]].lastAccess
    ensures forall h, g :: h in victims && g in rows && g !in victims ==> rows[h].lastAccess <= rows[g].lastAccess
    decreases |victims|
  {
    if victims != [] {
      var rest := victims[1..];
      VictimsAreOldest(rows - {victims[0]}, rest, maxSize);
      assert forall i :: 0 < i < |victims| ==> victims[i] == rest[i - 1] && victims[i] in rest;
      forall h, g | h in victims && g in rows && g !in victims
        ensures rows[h].lastAccess <= rows[g].lastAccess
      {
        assert h == victims[0] || h in rest;
        assert g in rows - {victims[0]} && g !in rest;
      }
    }
  }

  lemma {:induction false} LastVictimWasNeeded(rows: map<string, Row>, victims: seq<string>, maxSize: nat)
    requires CanEvict(rows, victims, maxSize) && victims != []
    ensures victims[|victims| - 1] in rows
    ensures Total(rows - Set(victims)) + rows[victims[|victims| - 1]].size > maxSize
    decreases |victims|
  {
    RemoveTwice(rows, victims);
    if |victims| == 1 {
      TotalWithout(rows, victims[0]);
      assert rows - Set(victims) == rows - {victims[0]};
    } else {
      LastVictimWasNeeded(rows - {victims[0]}, victims[1..], maxSize);
    }
  }

  /** The result fits. What was removed is ordered by last access, no survivor is older than a victim,
      and with the last victim still there it would not fit. */
  lemma EvictsShortestOldestPrefix(rows: map<string, Row>, victims: seq<string>, maxSize: nat)
    requires IsEviction(rows, victims, maxSize)
    ensures Total(rows - Set(victims)) <= maxSize
    ensures forall h :: h in victims ==> h in rows
    ensures forall i, j :: 0 <= i < j < |victims| ==>
      victims[i] != victims[j] && rows[victims[i]].lastAccess <= rows[victims[j]].lastAccess
    ensures forall h, g :: h in victims && g in rows && g !in victims ==> rows[h].lastAccess <= rows[g].lastAccess
    ensures victims != [] ==> Total(rows - Set(victims)) + rows[victims[|victims| - 1]].size > maxSize
  {
    VictimsAreOldest(rows, victims, maxSize);
    if victims != [] {
      LastVictimWasNeeded(rows, victims, maxSize);
    }
  }

  /** The rows accessed no earlier than `h`. */
  function AtLeastAsRecent(rows: map<string, Row>, h: string): map<string, Row>
    requires h in rows
  {
    map g | g in rows && rows[h].lastAccess <= rows[g].lastAccess :: rows[g]
  }

  lemma {:induction false} VictimsDoNotFit(rows: map<string, Row>, victims: seq<string>, maxSize: nat, h: string)
    requires CanEvict(rows, victims, maxSize) && h in victims && h in rows
    ensures Total(AtLeastAsRecent(rows, h)) > maxSize
    decreases |victims|
  {
    if victims[0] == h {
      assert AtLeastAsRecent(rows, h) == rows;
    } else {
      var rest := rows - {victims[0]};
      assert h in victims[1..];
      VictimsDoNotFit(rest, victims[1..], maxSize, h);
      TotalOfPart(AtLeastAsRecent(rest, h), AtLeastAsRecent(rows, h));
    }
  }

  lemma {:induction false} SomeOldest(rows: map<string, Row>) returns (h: string)
    requires rows != map[]
    ensures h in rows && IsOldest(rows, h)
    decreases |rows|
  {
    var g :| g in rows;
    assert forall k :: k in rows ==> k == g || k in rows - {g};
    if rows - {g} == map[] {
      h := g;
    } else {
      h := SomeOldest(rows - {g});
      if rows[g].lastAccess < rows[h].lastAccess {
        h := g;
      }
    }
  }

  lemma {:induction false} SomeEviction(rows: map<string, Row>, maxSize: nat) returns (victims: seq<string>)
    ensures IsEviction(rows, victims, maxSize)
    decreases |rows|
  {
    if Total(rows) <= maxSize {
      victims := [];
      assert rows - Set(victims) == rows;
    } else {
      var h := SomeOldest(rows);
      var rest := SomeEviction(rows - {h}, maxSize);
      victims := [h] + rest;
      assert victims[1..] == rest;
      RemoveTwice(rows, victims);
    }
  }

  lemma {:induction false} SomeEvictionOf(rows: map<string, Row>, maxSize: nat, h: string) returns (victims: seq<string>)
    requires h in rows && Total(AtLeastAsRecent(rows, h)) > maxSize
    ensures IsEviction(rows, victims, maxSize) && h in victims
    decreases |rows|
  {
    TotalOfPart(AtLeastAsRecent(rows, h), rows);
    var first := h;
    if !IsOldest(rows, h) {
      first := SomeOldest(rows);
    }
    var rest;
    if first == h {
      rest := SomeEviction(rows - {h}, maxSize);
    } else {
      assert AtLeastAsRecent(rows - {first}, h) == AtLeastAsRecent(rows, h);
      rest := SomeEvictionOf(rows - {first}, maxSize, h);
    }
    victims := [first] + rest;
    assert victims[1..] == rest;
    RemoveTwice(rows, victims);
  }

  /** An entry survives every eviction exactly if it fits together with all entries used no earlier. */
  lemma SurvivesIffRecentEntriesFit(rows: map<string, Row>, maxSize: nat, h: string)
    requires h in rows
    ensures (forall victims :: IsEviction(rows, victims, maxSize) ==> h !in victims)
      <==> Total(AtLeastAsRecent(rows, h)) <= maxSize
  {
    if Total(AtLeastAsRecent(rows, h)) <= maxSize {
      forall victims | IsEviction(rows, victims, maxSize)
        ensures h !in victims
      {
        if h in victims {
          VictimsDoNotFit(rows, victims, maxSize, h);
        }
      }
    } else {
      var victims := SomeEvictionOf(rows, maxSize, h);
    }
  }

  /** So a strictly newest entry survives if and only if it fits on its own. */
  lemma NewestSurvivesIffItFits(rows: map<string, Row>, maxSize: nat, h: string)
    requires h in rows && forall g :: g in rows && g != h ==> rows[g].lastAccess < rows[h].lastAccess
    ensures (forall victims :: IsEviction(rows, victims, maxSize) ==> h !in victims) <==> rows[h].size <= maxSize
  {
    SurvivesIffRecentEntriesFit(rows, maxSize, h);
    TotalAtMostOne(AtLeastAsRecent(rows, h), h);
  }

  // ---- the operations ---------------------------------------------------------------------------

  datatype Action =
    | Store(url: string, content: Content, headers: Headers, now: int, victims: seq<string>)
    | Lookup(url: string, now: int)
    | Refresh(url: string, headers: Headers, now: int)
    | Delete(urls: seq<string>)
    | Clear
    | LoseFile(url: string)

  datatype Hit = Hit(path: string, headers: Headers, cachedAt: int)

  function Inserted(hash: Hash, d: Disk, url: string, content: Content, headers: Headers, now: int): Disk
    requires |hash(url)| >= 2
  {
    var h := hash(url);
    Disk(d.rows[h := Row(url, |content|, now, PathOf(h), headers, now)], d.files[PathOf(h) := content])
  }

  function OnLookup(hash: Hash, d: Disk, url: string, now: int): (Disk, Option<Hit>) {
    var h := hash(url);
    if h !in d.rows then (d, None)
    else
      var row := d.rows[h];
      if row.path in d.files then
        (d.(rows := d.rows[h := row.(lastAccess := now)]), Some(Hit(row.path, row.headers, row.cachedAt)))
      else (d.(rows := d.rows - {h}), None)
  }

  function OnRefresh(hash: Hash, d: Disk, url: string, headers: Headers, now: int): Disk {
    var h := hash(url);
    if h !in d.rows then d
    else d.(rows := d.rows[h := d.rows[h].(headers := headers, cachedAt := now)])
  }

  function Hashes(hash: Hash, urls: seq<string>): set<string> {
    set u | u in urls :: hash(u)
  }

  ghost predicate Allowed(hash: Hash, d: Disk, a: Action, maxSize: nat)
    requires IsHash(hash)
  {
    a.Store? ==>
      IsEviction(Inserted(hash, d, a.url, a.content, a.headers, a.now).rows, Map(hash, a.victims), maxSize)
  }

  function Map(hash: Hash, urls: seq<string>): (r: seq<string>)
    ensures |r| == |urls| && forall i :: 0 <= i < |r| ==> r[i] == hash(urls[i])
  {
    seq(|urls|, i requires 0 <= i < |urls| => hash(urls[i]))
  }

  ghost function After(hash: Hash, d: Disk, a: Action): Disk
    requires IsHash(hash)
  {
    match a
    case Store(url, content, headers, now, victims) =>
      Cleared(Inserted(hash, d, url, content, headers, now), Hashes(hash, victims))
    case Lookup(url, now) => OnLookup(hash, d, url, now).0
    case Refresh(url, headers, now) => OnRefresh(hash, d, url, headers, now)
    case Delete(urls) => Cleared(d, Hashes(hash, urls))
    case Clear => Cleared(d, d.rows.Keys)
    case LoseFile(url) => d.(files := d.files - {PathOf(hash(url))})
  }

  /** A just stored entry that is strictly newest survives every eviction if and only if it fits. */
  lemma StoredSurvivesIffItFits(hash: Hash, d: Disk, url: string, content: Content, headers: Headers, now: int, maxSize: nat)
    requires IsHash(hash) && forall h :: h in d.rows && h != hash(url) ==> d.rows[h].lastAccess < now
    ensures var rows := Inserted(hash, d, url, content, headers, now).rows;
      (forall victims :: IsEviction(rows, victims, maxSize) ==> hash(url) !in victims) <==> |content| <= maxSize
  {
    NewestSurvivesIffItFits(Inserted(hash, d, url, content, headers, now).rows, maxSize, hash(url));
  }

  /** A hit protects its entry: it is evicted only together with everything used before the hit. */
  lemma HitIsEvictedLast(hash: Hash, d: Disk, url: string, now: int, victims: seq<string>, maxSize: nat, g: string)
    requires OnLookup(hash, d, url, now).1.Some? && IsEviction(OnLookup(hash, d, url, now).0.rows, victims, maxSize)
    requires g in d.rows && g != hash(url) && d.rows[g].lastAccess < now
    ensures hash(url) in victims ==> g in victims
  {
    VictimsAreOldest(OnLookup(hash, d, url, now).0.rows, victims, maxSize);
  }

  // ---- the invariant over runs ------------------------------------------------------------------

  lemma InsertedKeeps(hash: Hash, d: Disk, url: string, content: Content, headers: Headers, now: int)
    requires IsHash(hash) && Inv(hash, d)
    ensures Inv(hash, Inserted(hash, d, url, content, headers, now))
  {
  }

  lemma HashesOfVictims(hash: Hash, urls: seq<string>)
    ensures Set(Map(hash, urls)) == Hashes(hash, urls)
  {
  }

  lemma InvStep(hash: Hash, d: Disk, a: Action, maxSize: nat)
    requires IsHash(hash) && Inv(hash, d) && Allowed(hash, d, a, maxSize)
    ensures Inv(hash, After(hash, d, a))
  {
    if a.Store? {
      InsertedKeeps(hash, d, a.url, a.content, a.headers, a.now);
      ClearedKeeps(hash, Inserted(hash, d, a.url, a.content, a.headers, a.now), Hashes(hash, a.victims));
    } else if a.Delete? {
      ClearedKeeps(hash, d, Hashes(hash, a.urls));
    } else {
      var d1 := After(hash, d, a);
      forall g | g in d1.rows
        ensures RowOk(hash, d1, g)
      {
        assert RowOk(hash, d, g);
      }
      forall p | p in d1.files
        ensures FileOk(d1, p)
      {
        assert FileOk(d, p);
      }
    }
  }

  lemma TotalStep(hash: Hash, d: Disk, a: Action, maxSize: nat)
    requires IsHash(hash) && Inv(hash, d) && Allowed(hash, d, a, maxSize) && Total(d.rows) <= maxSize
    ensures Total(After(hash, d, a).rows) <= maxSize
  {
    if a.Store? {
      HashesOfVictims(hash, a.victims);
    } else {
      TotalOfPart(After(hash, d, a).rows, d.rows);
    }
  }

  ghost predicate CanRun(hash: Hash, d: Disk, run: seq<Action>, maxSize: nat)
    requires IsHash(hash)
    decreases |run|
  {
    run == [] || (Allowed(hash, d, run[0], maxSize) && CanRun(hash, After(hash, d, run[0]), run[1..], maxSize))
  }

  ghost function Run(hash: Hash, d: Disk, run: seq<Action>): Disk
    requires IsHash(hash)
    decreases |run|
  {
    if run == [] then d else Run(hash, After(hash, d, run[0]), run[1..])
  }

  /** Over any run no file is without its row and the disk never holds more than `maxSize` bytes. */
  lemma {:induction false} RunStaysConsistent(hash: Hash, d: Disk, run: seq<Action>, maxSize: nat)
    requires IsHash(hash) && Inv(hash, d) && Total(d.rows) <= maxSize && CanRun(hash, d, run, maxSize)
    ensures Inv(hash, Run(hash, d, run))
    ensures Bytes(Run(hash, d, run).files) <= Total(Run(hash, d, run).rows) <= maxSize
    decreases |run|
  {
    if run == [] {
      BytesWithinTotal(hash, d);
    } else {
      InvStep(hash, d, run[0], maxSize);
      TotalStep(hash, d, run[0], maxSize);
      RunStaysConsistent(hash, After(hash, d, run[0]), run[1..], maxSize);
    }
  }

  // ---- refinement of a plain map ----------------------------------------------------------------

  datatype Entry = Entry(content: Content, headers: Headers, cachedAt: int)

  type Plain = map<string, Entry>

  function PlainAfter(m: Plain, a: Action): Plain {
    match a
    case Store(url, content, headers, now, victims) => m[url := Entry(content, headers, now)] - Set(victims)
    case Lookup(_, _) => m
    case Refresh(url, headers, now) =>
      if url in m then m[url := m[url].(headers := headers, cachedAt := now)] else m
    case Delete(urls) => m - Set(urls)
    case Clear => map[]
    case LoseFile(url) => m - {url}
  }

  function PlainRun(m: Plain, run: seq<Action>): Plain
    decreases |run|
  {
    if run == [] then m else PlainRun(PlainAfter(m, run[0]), run[1..])
  }

  predicate Present(hash: Hash, d: Disk, url: string) {
    hash(url) in d.rows && d.rows[hash(url)].path in d.files
  }

  function EntryOf(hash: Hash, d: Disk, url: string): Entry
    requires Present(hash, d, url)
  {
    var row := d.rows[hash(url)];
    Entry(d.files[row.path], row.headers, row.cachedAt)
  }

  ghost predicate SameAt(hash: Hash, d: Disk, m: Plain, url: string) {
    (url in m <==> Present(hash, d, url)) && (url in m ==> m[url] == EntryOf(hash, d, url))
  }

  /** The disk seen as a map from URLs: the rows whose file is there. */
  ghost predicate Refines(hash: Hash, d: Disk, m: Plain) {
    forall url :: SameAt(hash, d, m, url)
  }

  lemma RefinesInsert(hash: Hash, d: Disk, m: Plain, a: Action)
    requires IsHash(hash) && Inv(hash, d) && Refines(hash, d, m) && a.Store?
    ensures Refines(hash, Inserted(hash, d, a.url, a.content, a.headers, a.now),
                    m[a.url := Entry(a.content, a.headers, a.now)])
  {
    var d1 := Inserted(hash, d, a.url, a.content, a.headers, a.now);
    var m1 := m[a.url := Entry(a.content, a.headers, a.now)];
    forall url
      ensures SameAt(hash, d1, m1, url)
    {
      assert SameAt(hash, d, m, url);
      assert hash(url) in d.rows ==> RowOk(hash, d, hash(url));
      assert url != a.url ==> hash(url) != hash(a.url) && PathOf(hash(url)) != PathOf(hash(a.url));
    }
  }

  lemma RefinesClear(hash: Hash, d: Disk, m: Plain, urls: seq<string>)
    requires IsHash(hash) && Inv(hash, d) && Refines(hash, d, m)
    ensures Refines(hash, Cleared(d, Hashes(hash, urls)), m - Set(urls))
  {
    var hs := Hashes(hash, urls);
    forall url
      ensures SameAt(hash, Cleared(d, hs), m - Set(urls), url)
    {
      assert SameAt(hash, d, m, url);
      assert hash(url) in hs <==> url in urls;
      if hash(url) in d.rows {
        PathLeaves(hash, d, hs, hash(url));
      }
    }
  }

  /** A file goes only with its own row. */
  lemma PathLeaves(hash: Hash, d: Disk, hs: set<string>, h: string)
    requires Inv(hash, d) && h in d.rows
    ensures d.rows[h].path in Paths(d.rows, hs) <==> h in hs
  {
  }

  lemma RefinesUpdate(hash: Hash, d: Disk, m: Plain, a: Action)
    requires IsHash(hash) && Inv(hash, d) && Refines(hash, d, m)
    requires a.Lookup? || a.Refresh? || a.LoseFile?
    ensures Refines(hash, After(hash, d, a), PlainAfter(m, a))
  {
    forall url
      ensures SameAt(hash, After(hash, d, a), PlainAfter(m, a), url)
    {
      assert SameAt(hash, d, m, url);
      assert SameAt(hash, d, m, a.url);
      assert hash(url) in d.rows ==> RowOk(hash, d, hash(url));
      assert hash(a.url) in d.rows ==> RowOk(hash, d, hash(a.url));
      assert url != a.url ==> hash(url) != hash(a.url) && PathOf(hash(url)) != PathOf(hash(a.url));
    }
  }

  /** One step of the disk is one step of the plain map. */
  lemma RefinesStep(hash: Hash, d: Disk, m: Plain, a: Action)
    requires IsHash(hash) && Inv(hash, d) && Refines(hash, d, m)
    ensures Refines(hash, After(hash, d, a), PlainAfter(m, a))
  {
    if a.Store? {
      InsertedKeeps(hash, d, a.url, a.content, a.headers, a.now);
      RefinesInsert(hash, d, m, a);
      RefinesClear(hash, Inserted(hash, d, a.url, a.content, a.headers, a.now),
                   m[a.url := Entry(a.content, a.headers, a.now)], a.victims);
    } else if a.Delete? {
      RefinesClear(hash, d, m, a.urls);
    } else if a.Clear? {
      ClearLeavesNothing(hash, d);
    } else {
      RefinesUpdate(hash, d, m, a);
    }
  }

  lemma ClearLeavesNothing(hash: Hash, d: Disk)
    requires Inv(hash, d)
    ensures Cleared(d, d.rows.Keys) == EMPTY
  {
  }

  lemma {:induction false} RefinesRun(hash: Hash, d: Disk, m: Plain, run: seq<Action>, maxSize: nat)
    requires IsHash(hash) && Inv(hash, d) && Refines(hash, d, m) && CanRun(hash, d, run, maxSize)
    ensures Inv(hash, Run(hash, d, run)) && Refines(hash, Run(hash, d, run), PlainRun(m, run))
    decreases |run|
  {
    if run != [] {
      InvStep(hash, d, run[0], maxSize);
      RefinesStep(hash, d, m, run[0]);
      RefinesRun(hash, After(hash, d, run[0]), PlainAfter(m, run[0]), run[1..], maxSize);
    }
  }

  /** What was last stored for `url` in `run`, with the headers and the time of the last refresh since, unless it
      was evicted, deleted, cleared or lost. */
  function InForce(run: seq<Action>, url: string): Option<Entry>
    decreases |run|
  {
    if run == [] then None
    else
      var before := InForce(run[..|run| - 1], url);
      match run[|run| - 1]
      case Store(u, content, headers, now, victims) =>
        if url in victims then None else if u == url then Some(Entry(content, headers, now)) else before
      case Refresh(u, headers, now) =>
        if u == url && before.Some? then Some(Entry(before.value.content, headers, now)) else before
      case Delete(urls) => if url in urls then None else before
      case Clear => None
      case LoseFile(u) => if u == url then None else before
      case Lookup(_, _) => before
  }

  lemma {:induction false} PlainRunSnoc(m: Plain, run: seq<Action>)
    requires run != []
    ensures PlainRun(m, run) == PlainAfter(PlainRun(m, run[..|run| - 1]), run[|run| - 1])
    decreases |run|
  {
    if |run| == 1 {
      assert run[1..] == [] && run[..0] == [];
    } else {
      PlainRunSnoc(PlainAfter(m, run[0]), run[1..]);
      assert run[1..][..|run| - 2] == run[..|run| - 1][1..];
    }
  }

  lemma {:induction false} PlainHoldsInForce(run: seq<Action>, url: string)
    ensures var m := PlainRun(map[], run);
      InForce(run, url) == if url in m then Some(m[url]) else None
    decreases |run|
  {
    if run != [] {
      PlainRunSnoc(map[], run);
      PlainHoldsInForce(run[..|run| - 1], url);
    }
  }

  /** After any run a lookup finds exactly what is in force: the bytes, the headers and the time, however
      often it was looked up before; if it misses, no row of the URL is left. */
  lemma LookupFindsLastStored(hash: Hash, run: seq<Action>, maxSize: nat, url: string, now: int)
    requires IsHash(hash) && CanRun(hash, EMPTY, run, maxSize)
    ensures var d := Run(hash, EMPTY, run); var (d1, hit) := OnLookup(hash, d, url, now);
      && (hit.Some? <==> InForce(run, url).Some?)
      && (hit.Some? ==>
            && hit.value.path in d1.files
            && InForce(run, url) == Some(Entry(d1.files[hit.value.path], hit.value.headers, hit.value.cachedAt)))
      && (hit.None? ==> hash(url) !in d1.rows)
      && d1.files == d.files
  {
    RefinesRun(hash, EMPTY, map[], run, maxSize);
    PlainHoldsInForce(run, url);
    var d, m := Run(hash, EMPTY, run), PlainRun(map[], run);
    assert SameAt(hash, d, m, url);
  }

  // ---- where the fields of a row come from ------------------------------------------------------

  /** The last of the actions that satisfy `p`. */
  ghost predicate IsLast(run: seq<Action>, i: nat, p: Action -> bool) {
    i < |run| && p(run[i]) && forall j :: i < j < |run| ==> !p(run[j])
  }

  function StoresOf(url: string): Action -> bool {
    (a: Action) => a.Store? && a.url == url
  }

  function WritesOf(url: string): Action -> bool {
    (a: Action) => (a.Store? || a.Refresh?) && a.url == url
  }

  function UsesOf(url: string): Action -> bool {
    (a: Action) => (a.Store? || a.Lookup?) && a.url == url
  }

  lemma {:induction false} RunSnoc(hash: Hash, d: Disk, run: seq<Action>, maxSize: nat)
    requires IsHash(hash) && CanRun(hash, d, run, maxSize) && run != []
    ensures var before := run[..|run| - 1];
      CanRun(hash, d, before, maxSize) && Run(hash, d, run) == After(hash, Run(hash, d, before), run[|run| - 1])
    decreases |run|
  {
    if |run| == 1 {
      assert run[1..] == [] && run[..0] == [];
    } else {
      RunSnoc(hash, After(hash, d, run[0]), run[1..], maxSize);
      assert run[1..][..|run| - 2] == run[..|run| - 1][1..];
    }
  }

  /** What an action other than a store makes of the row of `url`. */
  function RowAfter(row: Row, a: Action, url: string): Row {
    match a
    case Lookup(u, now) => if u == url then row.(lastAccess := now) else row
    case Refresh(u, headers, now) => if u == url then row.(headers := headers, cachedAt := now) else row
    case _ => row
  }

  lemma RowStep(hash: Hash, d: Disk, a: Action, url: string)
    requires IsHash(hash) && hash(url) in After(hash, d, a).rows
    ensures var row' := After(hash, d, a).rows[hash(url)];
      if a.Store? && a.url == url then row' == Row(url, |a.content|, a.now, PathOf(hash(url)), a.headers, a.now)
      else hash(url) in d.rows && row' == RowAfter(d.rows[hash(url)], a, url)
  {
  }

  /** Size from the last store, headers and freshness time from the last store or refresh, time of last access
      from the last store or lookup. */
  ghost predicate IsHistory(run: seq<Action>, url: string, row: Row, stored: nat, written: nat, used: nat) {
    && IsLast(run, stored, StoresOf(url)) && IsLast(run, written, WritesOf(url)) && IsLast(run, used, UsesOf(url))
    && row.size == |run[stored].content|
    && row.headers == run[written].headers && row.cachedAt == run[written].now
    && row.lastAccess == run[used].now
  }

  lemma HistoryStep(run: seq<Action>, a: Action, url: string, row: Row, stored: nat, written: nat, used: nat)
    requires IsHistory(run, url, row, stored, written, used) && !(a.Store? && a.url == url)
    ensures IsHistory(run + [a], url, RowAfter(row, a, url), stored,
                      if a.Refresh? && a.url == url then |run| else written,
                      if a.Lookup? && a.url == url then |run| else used)
  {
  }

  /** Whatever else went on, a row tells when its URL was last stored, refreshed and looked up. */
  lemma {:induction false} RowHistory(hash: Hash, run: seq<Action>, maxSize: nat, url: string)
      returns (stored: nat, written: nat, used: nat)
    requires IsHash(hash) && CanRun(hash, EMPTY, run, maxSize) && hash(url) in Run(hash, EMPTY, run).rows
    ensures IsHistory(run, url, Run(hash, EMPTY, run).rows[hash(url)], stored, written, used)
    decreases |run|
  {
    RunSnoc(hash, EMPTY, run, maxSize);
    var before, last := run[..|run| - 1], run[|run| - 1];
    var d := Run(hash, EMPTY, before);
    RowStep(hash, d, last, url);
    assert run == before + [last];
    if last.Store? && last.url == url {
      return |before|, |before|, |before|;
    }
    stored, written, used := RowHistory(hash, before, maxSize, url);
    HistoryStep(before, last, url, d.rows[hash(url)], stored, written, used);
    written := if last.Refresh? && last.url == url then |before| else written;
    used := if last.Lookup? && last.url == url then |before| else used;
  }

  /** A refresh is not a use: it changes nothing about what may be evicted. */
  lemma {:induction false} RefreshKeepsEvictions(rows: map<string, Row>, rows': map<string, Row>, victims: seq<string>,
                                                 maxSize: nat)
    requires SameButHeaders(rows, rows') && CanEvict(rows, victims, maxSize)
    ensures CanEvict(rows', victims, maxSize)
    decreases |victims|
  {
    if victims != [] {
      TotalOfPart(rows, rows');
      RefreshKeepsEvictions(rows - {victims[0]}, rows' - {victims[0]}, victims[1..], maxSize);
    }
  }

  ghost predicate SameButHeaders(rows: map<string, Row>, rows': map<string, Row>) {
    && rows.Keys == rows'.Keys
    && forall h :: h in rows ==> rows'[h].size == rows[h].size && rows'[h].lastAccess == rows[h].lastAccess
  }

  lemma RefreshIsNoUse(hash: Hash, d: Disk, url: string, headers: Headers, now: int, victims: seq<string>, maxSize: nat)
    ensures IsEviction(OnRefresh(hash, d, url, headers, now).rows, victims, maxSize)
      <==> IsEviction(d.rows, victims, maxSize)
  {
    var rows, rows' := d.rows, OnRefresh(hash, d, url, headers, now).rows;
    TotalOfPart(rows - Set(victims), rows' - Set(victims));
    TotalOfPart(rows' - Set(victims), rows - Set(victims));
    if IsEviction(rows, victims, maxSize) {
      RefreshKeepsEvictions(rows, rows', victims, maxSize);
    }
    if IsEviction(rows', victims, maxSize) {
      RefreshKeepsEvictions(rows', rows, victims, maxSize);
    }
  }

  const DOWNLOAD: string := ".download"

  /** The extension of the name is `download`; a leading dot starts no extension. */
  predicate IsDownload(name: string) {
    |name| > |DOWNLOAD| && name[|name| - |DOWNLOAD|..] == DOWNLOAD
  }

  /** The names of unfinished downloads: something, then `.download`. */
  lemma DownloadNames(name: string)
    ensures IsDownload(name) <==> exists stem: string :: stem != "" && name == stem + ".download"
  {
    if IsDownload(name) {
      var stem := name[..|name| - 9];
      assert name == stem + ".download";
    }
  }

  // ---- the class --------------------------------------------------------------------------------

  class Cache {
    const hash: Hash
    const maxSize: nat
    var rows: map<string, Row>
    var files: map<string, Content>
    /** The files in the directory for unfinished downloads. */
    var tmp: map<string, Content>

    ghost function View(): Disk
      reads this
    {
      Disk(rows, files)
    }

    ghost predicate Valid()
      reads this
    {
      IsHash(hash) && Inv(hash, View())
    }

    constructor (hash: Hash, maxSize: nat)
      requires IsHash(hash)
      ensures Valid() && View() == EMPTY && this.hash == hash && this.maxSize == maxSize
    {
      this.hash, this.maxSize := hash, maxSize;
      rows, files, tmp := map[], map[], map[];
    }

    method LookupEntry(url: string, now: int) returns (hit: Option<Hit>)
      requires Valid()
      modifies this`rows
      ensures Valid() && (View(), hit) == OnLookup(hash, old(View()), url, now)
      ensures hit.Some? <==> hash(url) in old(rows) && old(rows)[hash(url)].path in files
      ensures hit.Some? ==>
        var row := old(rows)[hash(url)];
        && hit.value == Hit(row.path, row.headers, row.cachedAt)
        && rows == old(rows)[hash(url) := row.(lastAccess := now)]
      ensures hit.None? ==> rows == old(rows) - {hash(url)}
    {
      InvStep(hash, View(), Lookup(url, now), maxSize);
      var h := hash(url);
      if h !in rows {
        return None;
      }
      var row := rows[h];
      if row.path in files {
        rows := rows[h := row.(lastAccess := now)];
        return Some(Hit(row.path, row.headers, row.cachedAt));
      }
      rows := rows - {h};
      return None;
    }

    method RefreshEntry(url: string, headers: Headers, now: int)
      requires Valid()
      modifies this`rows
      ensures Valid() && View() == OnRefresh(hash, old(View()), url, headers, now)
    {
      InvStep(hash, View(), Refresh(url, headers, now), maxSize);
      var h := hash(url);
      if h in rows {
        rows := rows[h := rows[h].(headers := headers, cachedAt := now)];
      }
    }

    /** Moves the downloaded file into place, records it and evicts; None if there is no such file. */
    method StoreFile(url: string, temp: string, headers: Headers, now: int)
      returns (path: Option<string>, ghost victims: seq<string>)
      requires Valid()
      modifies this`rows, this`files, this`tmp
      ensures Valid() && path == (if temp in old(tmp) then Some(PathOf(hash(url))) else None)
      ensures path.None? ==> unchanged(this)
      ensures path.Some? ==>
        var d := Inserted(hash, old(View()), url, old(tmp)[temp], headers, now);
        && IsEviction(d.rows, victims, maxSize) && View() == Cleared(d, Set(victims))
        && Total(rows) <= maxSize && tmp == old(tmp) - {temp}
    {
      if temp !in tmp {
        return None, [];
      }
      var content := tmp[temp];
      InsertedKeeps(hash, View(), url, content, headers, now);
      var h := hash(url);
      path := Some(PathOf(h));
      tmp := tmp - {temp};
      files := files[path.value := content];
      rows := rows[h := Row(url, |content|, now, path.value, headers, now)];
      victims := EvictInner();
    }

    /** `SELECT SUM(size)` */
    method SelectTotalSize() returns (total: nat)
      ensures total == Total(rows)
    {
      var rest := rows;
      total := 0;
      while rest != map[]
        invariant total + Total(rest) == Total(rows)
        decreases |rest|
      {
        var h :| h in rest;
        TotalWithout(rest, h);
        total := total + rest[h].size;
        rest := rest - {h};
      }
    }

    /** `ORDER BY last_access ASC LIMIT 1` */
    method SelectOldest() returns (oldest: Option<string>)
      ensures oldest.None? <==> rows == map[]
      ensures oldest.Some? ==> oldest.value in rows && IsOldest(rows, oldest.value)
    {
      oldest := None;
      var rest := rows;
      while rest != map[]
        invariant forall g :: g in rest ==> g in rows
        invariant oldest.None? ==> rest == rows
        invariant oldest.Some? ==> oldest.value in rows
        invariant oldest.Some? ==>
          forall g :: g in rows && g !in rest ==> rows[oldest.value].lastAccess <= rows[g].lastAccess
        decreases |rest|
      {
        var h :| h in rest;
        if oldest.None? || rows[h].lastAccess < rows[oldest.value].lastAccess {
          oldest := Some(h);
        }
        rest := rest - {h};
      }
    }

    method EvictInner() returns (ghost victims: seq<string>)
      requires Valid()
      modifies this`rows, this`files
      ensures Valid() && IsEviction(old(rows), victims, maxSize) && View() == Cleared(old(View()), Set(victims))
      ensures Total(rows) <= maxSize
    {
      victims := [];
      ghost var start := View();
      ClearNone(start);
      while true
        invariant Inv(hash, View())
        invariant CanEvict(start.rows, victims, maxSize) && View() == Cleared(start, Set(victims))
        decreases |rows|
      {
        var total := SelectTotalSize();
        if total <= maxSize {
          return;
        }
        var oldest := SelectOldest();
        if oldest.None? {
          return;
        }
        EvictOneMore(start.rows, victims, maxSize, oldest.value);
        ClearOneMore(start, victims, oldest.value);
        RemoveEntry(oldest.value);
        victims := victims + [oldest.value];
      }
    }

    /** Deletes the file, then the row. */
    method RemoveEntry(h: string)
      requires Inv(hash, View()) && h in rows
      modifies this`rows, this`files
      ensures Inv(hash, View()) && View() == Cleared(old(View()), {h}) && |rows| < |old(rows)|
    {
      ClearedKeeps(hash, View(), {h});
      files := files - {rows[h].path};
      assert Paths(rows, {h}) == {rows[h].path};
      assert |rows| == |rows - {h}| + 1;
      rows := rows - {h};
    }

    method DeleteByUrl(url: string) returns (hit: bool)
      requires Valid()
      modifies this`rows, this`files
      ensures Valid() && hit == (hash(url) in old(rows))
      ensures View() == if hit then Cleared(old(View()), {hash(url)}) else old(View())
    {
      hit := hash(url) in rows;
      if hit {
        RemoveEntry(hash(url));
      }
    }

    /** The number of distinct URLs that had a row. */
    method DeleteByUrls(urls: seq<string>) returns (removed: nat)
      requires Valid()
      modifies this`rows, this`files
      ensures Valid() && View() == Cleared(old(View()), Hashes(hash, urls))
      ensures removed == |old(rows).Keys * Hashes(hash, urls)|
    {
      removed := 0;
      ghost var start := View();
      ClearNone(start);
      for i := 0 to |urls|
        invariant Valid() && View() == Cleared(start, Hashes(hash, urls[..i]))
        invariant removed == |start.rows.Keys * Hashes(hash, urls[..i])|
      {
        DeleteOneMore(hash, start, urls, i);
        var hit := DeleteByUrl(urls[i]);
        if hit {
          removed := removed + 1;
        }
      }
      assert urls[..|urls|] == urls;
    }

    /** Every entry goes, and whatever looks like an unfinished download. */
    method ClearAll() returns (count: nat)
      requires Valid()
      modifies this`rows, this`files, this`tmp
      ensures Valid() && View() == EMPTY && count == |old(rows)|
      ensures tmp == old(tmp) - set n | n in old(tmp) && IsDownload(n)
    {
      count := |rows|;
      RemoveFiles();
      ClearLeavesNothing(hash, old(View()));
      rows := map[];
      RemoveDownloads();
    }

    method RemoveDownloads()
      modifies this`tmp
      ensures tmp == old(tmp) - set n | n in old(tmp) && IsDownload(n)
    {
      ghost var start := tmp;
      var rest := tmp.Keys;
      while rest != {}
        invariant rest <= start.Keys && tmp == start - set n | n in start && n !in rest && IsDownload(n)
        decreases |rest|
      {
        var n :| n in rest;
        if IsDownload(n) {
          tmp := tmp - {n};
        }
        rest := rest - {n};
      }
    }

    /** Deletes the file of every row. */
    method RemoveFiles()
      modifies this`files
      ensures files == old(files) - Paths(rows, rows.Keys)
    {
      ghost var start := files;
      var rest := rows.Keys;
      PathsOfNone(rows, files);
      while rest != {}
        invariant rest <= rows.Keys && files == start - Paths(rows, rows.Keys - rest)
        decreases |rest|
      {
        var h :| h in rest;
        PathsOneMore(rows, rows.Keys - rest, h);
        assert rows.Keys - (rest - {h}) == rows.Keys - rest + {h};
        files := files - {rows[h].path};
        rest := rest - {h};
      }
      assert rows.Keys - rest == rows.Keys;
    }
  }

  lemma PathsOfNone(rows: map<string, Row>, files: map<string, Content>)
    ensures files - Paths(rows, rows.Keys - rows.Keys) == files
  {
  }

  lemma PathsOneMore(rows: map<string, Row>, hs: set<string>, h: string)
    requires h in rows
    ensures Paths(rows, hs + {h}) == Paths(rows, hs) + {rows[h].path}
  {
  }

  lemma ClearNone(d: Disk)
    ensures Cleared(d, {}) == d && Cleared(d, Set([])) == d
  {
  }

  lemma ClearOneMore(d: Disk, victims: seq<string>, h: string)
    ensures Cleared(Cleared(d, Set(victims)), {h}) == Cleared(d, Set(victims + [h]))
  {
  }

  lemma DeleteOneMore(hash: Hash, d: Disk, urls: seq<string>, i: nat)
    requires i < |urls|
    ensures var h := hash(urls[i]);
      var before, after := Hashes(hash, urls[..i]), Hashes(hash, urls[..i + 1]);
      if h in Cleared(d, before).rows
      then Cleared(d, after) == Cleared(Cleared(d, before), {h})
        && |d.rows.Keys * after| == |d.rows.Keys * before| + 1
      else Cleared(d, after) == Cleared(d, before) && |d.rows.Keys * after| == |d.rows.Keys * before|
  {
    var h := hash(urls[i]);
    var before := Hashes(hash, urls[..i]);
    OneMoreHash(hash, urls, i);
    ClearTwice(d, before, h);
    if h in Cleared(d, before).rows {
      OneMoreCounted(d.rows.Keys, before, h);
    } else {
      ClearUnknown(Cleared(d, before), h);
      assert d.rows.Keys * (before + {h}) == d.rows.Keys * before;
    }
  }

  lemma ClearUnknown(d: Disk, h: string)
    requires h !in d.rows
    ensures Cleared(d, {h}) == d
  {
  }

  lemma OneMoreHash(hash: Hash, urls: seq<string>, i: nat)
    requires i < |urls|
    ensures Hashes(hash, urls[..i + 1]) == Hashes(hash, urls[..i]) + {hash(urls[i])}
  {
  }

  lemma OneMoreCounted(keys: set<string>, hs: set<string>, h: string)
    requires h in keys && h !in hs
    ensures |keys * (hs + {h})| == |keys * hs| + 1
  {
    assert keys * (hs + {h}) == keys * hs + {h};
  }
}
