/** From upstream to the client by way of the cache: what a lookup finds is what some HEAD request saw. */
module EndToEnd {
  import opened Common
  import Download = DownloadSystem
  import Theorems = DownloadTheorems
  import Cache = DiskCache

  /** A run of a download. */
  datatype Origin = Origin(cfg: Download.Config, start: Download.State, acts: seq<Download.Action>)

  /** `content` is what a download of one generation left on disk when it ended with Ok. */
  ghost predicate IsDownloaded(content: seq<byte>, o: Origin) {
    && Theorems.Reachable(o.cfg, o.start, o.acts) && Download.OneGeneration(o.cfg)
    && var s := Download.Run(o.cfg, o.start, o.acts);
       s.main == Download.Finished(Ok(())) && content == s.buf.file
  }

  /** The bytes the HEAD request of that download promised. */
  function Promised(o: Origin): seq<byte> {
    o.cfg.head.content[..Min(o.cfg.total, |o.cfg.head.content|)]
  }

  /** Every file stored in `run` comes from the download listed beside it. */
  ghost predicate StoresDownloads(run: seq<Cache.Action>, origins: seq<Origin>) {
    && |origins| == |run|
    && forall i :: 0 <= i < |run| && run[i].Store? ==> IsDownloaded(run[i].content, origins[i])
  }

  lemma DownloadedIsPromised(content: seq<byte>, o: Origin)
    requires IsDownloaded(content, o)
    ensures content == Promised(o) && o.cfg.total <= |o.cfg.head.content|
  {
    Theorems.OkMeansWholeFile(o.cfg, o.start, o.acts);
  }

  /** The bytes of a hit are those of the download last stored for `url`. */
  ghost predicate HasPromised(run: seq<Cache.Action>, origins: seq<Origin>, url: string, content: seq<byte>) {
    && |origins| == |run|
    && exists i: nat :: Cache.IsLast(run, i, Cache.StoresOf(url)) && content == Promised(origins[i])
  }

  /** Its headers and the time its freshness counts from are those of the last store or refresh of `url`. */
  ghost predicate HasLastHeaders(run: seq<Cache.Action>, url: string, headers: Cache.Headers, cachedAt: int) {
    exists j: nat ::
      Cache.IsLast(run, j, Cache.WritesOf(url)) && headers == run[j].headers && cachedAt == run[j].now
  }

  lemma {:induction false} LastStoredIsStored(run: seq<Cache.Action>, url: string) returns (i: nat)
    requires Cache.InForce(run, url).Some?
    ensures Cache.IsLast(run, i, Cache.StoresOf(url)) && run[i].content == Cache.InForce(run, url).value.content
    decreases |run|
  {
    var last := run[|run| - 1];
    if last.Store? && last.url == url {
      i := |run| - 1;
    } else {
      i := LastStoredIsStored(run[..|run| - 1], url);
    }
  }

  /**
   If only successful downloads of one generation are stored, then whatever the cache did in between, a hit
   finds exactly the bytes promised by the HEAD request of the last download stored for that URL, under the
   headers and the time of the last store or refresh; lookups in between change neither.
   */
  lemma HitsAreWhatHeadPromised(hash: Cache.Hash, run: seq<Cache.Action>, origins: seq<Origin>, maxSize: nat,
                                url: string, now: int)
    requires Cache.IsHash(hash) && Cache.CanRun(hash, Cache.EMPTY, run, maxSize) && StoresDownloads(run, origins)
    requires Cache.OnLookup(hash, Cache.Run(hash, Cache.EMPTY, run), url, now).1.Some?
    ensures var (d, hit) := Cache.OnLookup(hash, Cache.Run(hash, Cache.EMPTY, run), url, now);
      && hit.value.path in d.files
      && HasPromised(run, origins, url, d.files[hit.value.path])
      && HasLastHeaders(run, url, hit.value.headers, hit.value.cachedAt)
  {
    Cache.LookupFindsLastStored(hash, run, maxSize, url, now);
    var i := LastStoredIsStored(run, url);
    DownloadedIsPromised(run[i].content, origins[i]);
    var _, j, _ := Cache.RowHistory(hash, run, maxSize, url);
  }
}
