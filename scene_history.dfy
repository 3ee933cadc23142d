/**
 * The scene history page (src/Components/SceneHistory/MantineSceneHistory.tsx): the user's
 * scene ids shown page by page, and a cache of previews (name and thumbnail) loaded for the ids
 * on the current page.
 */
module SceneHistory {
  import opened Wrappers
  import CommonApiCalls

  const HistoryFailed := "Failed to fetch user history. Please try again later."
  const UnknownName := "Unknown"
  /** The page sizes the select offers; the page starts with 10. */
  const PageSizes: set<nat> := {5, 10, 20, 35, 50}
  const InitialPageSize := 10

  /** A loaded preview: the thumbnail's object URL (empty until it arrives) and the scene name. */
  datatype Preview = Preview(image: string, name: string)

  // ---------------------------------------------------------------------------------------------
  // Paging

  /** `ids.slice((page - 1) * n, page * n)`: the ids shown on a page, the slice clamped to the list. */
  function PageIds(ids: seq<string>, page: nat, n: nat): (r: seq<string>)
    requires page >= 1
    ensures |r| <= n
  {
    var start := Min((page - 1) * n, |ids|);
    var end := Min(page * n, |ids|);
    CommonApiCalls.MulSucc(page - 1, n);
    ids[start..end]
  }

  /** `Math.ceil(len / n)`: the fewest pages of n ids that hold len ids. */
  function TotalPages(len: nat, n: nat): (t: nat)
    requires n >= 1
    ensures t * n >= len
    ensures t == 0 || (t - 1) * n < len
  {
    var t := (len + n - 1) / n;
    CommonApiCalls.DivBetween(len + n - 1, n, t);
    CommonApiCalls.MulSucc(if t > 0 then t - 1 else 0, n);
    t
  }

  /**
   * The id at position k is shown on exactly one page: page p shows it if and only if p is
   * k / n + 1, and that page is one of the pages 1..TotalPages.
   */
  lemma PageOfIndex(ids: seq<string>, n: nat, k: nat, page: nat)
    requires n >= 1 && k < |ids| && page >= 1
    ensures 1 <= k / n + 1 <= TotalPages(|ids|, n)
    ensures (page - 1) * n <= k < page * n <==> page == k / n + 1
    ensures page == k / n + 1 ==> PageIds(ids, page, n)[k - (page - 1) * n] == ids[k]
  {
    CommonApiCalls.DivBetween(k, n, page - 1);
    CommonApiCalls.MulSucc(page - 1, n);
    var t := TotalPages(|ids|, n);
    CommonApiCalls.DivAtLeast(k, n, t);
  }

  /** The ids of pages 1..m, one page after the other. */
  function PagesUpTo(ids: seq<string>, n: nat, m: nat): seq<string> {
    if m == 0 then [] else PagesUpTo(ids, n, m - 1) + PageIds(ids, m, n)
  }

  /** The first m pages hold the first m * n ids, in order. */
  lemma {:induction false} PagesUpToPrefix(ids: seq<string>, n: nat, m: nat)
    ensures PagesUpTo(ids, n, m) == ids[..Min(m * n, |ids|)]
  {
    if m > 0 {
      PagesUpToPrefix(ids, n, m - 1);
      CommonApiCalls.MulSucc(m - 1, n);
      CommonApiCalls.MulMono(m - 1, m, n);
      var a := Min((m - 1) * n, |ids|);
      var b := Min(m * n, |ids|);
      assert ids[..a] + ids[a..b] == ids[..b];
    }
  }

  /** Read one after the other, the pages 1..TotalPages show the whole list, every id once. */
  lemma AllPagesShowEverything(ids: seq<string>, n: nat)
    requires n >= 1
    ensures PagesUpTo(ids, n, TotalPages(|ids|, n)) == ids
  {
    PagesUpToPrefix(ids, n, TotalPages(|ids|, n));
  }

  /** The elements of xs that satisfy the filter `id !in cache`, in order. */
  function Uncached(xs: seq<string>, cache: map<string, Option<Preview>>): (r: seq<string>)
    ensures |r| <= |xs|
    ensures forall id :: id in r <==> id in xs && id !in cache
  {
    if xs == [] then []
    else
      assert xs == [xs[0]] + xs[1..];
      (if xs[0] in cache then [] else [xs[0]]) + Uncached(xs[1..], cache)
  }

  // ---------------------------------------------------------------------------------------------
  // Page state

  class SceneHistoryPage {
    var sceneIds: seq<string>
    /** previews: an id maps to a preview, to null after a failed thumbnail, or is absent. */
    var previews: map<string, Option<Preview>>
    var currentPage: nat
    var scenesPerPage: nat
    var error: Option<string>
    var isLoading: bool

    predicate Valid()
      reads this
    {
      currentPage >= 1 && scenesPerPage >= 1
    }

    constructor ()
      ensures Valid()
      ensures sceneIds == [] && previews == map[] && currentPage == 1 && scenesPerPage == InitialPageSize
      ensures error == None && isLoading
    {
      sceneIds := [];
      previews := map[];
      currentPage := 1;
      scenesPerPage := InitialPageSize;
      error := None;
      isLoading := true;
    }

    /** The ids the page shows now. */
    function CurrentScenes(): (r: seq<string>)
      reads this
      requires Valid()
      ensures |r| <= scenesPerPage
    {
      PageIds(sceneIds, currentPage, scenesPerPage)
    }

    /** The effect on the current page: exactly its ids that have no cache entry get loaded. */
    function PreviewsToLoad(): (r: seq<string>)
      reads this
      requires Valid()
      ensures forall id :: id in r <==> id in CurrentScenes() && id !in previews
    {
      Uncached(CurrentScenes(), previews)
    }

    /**
     * handleSceneHistory, with `answer` standing for the retried history request: the ids of an
     * answer replace the list, a null answer sets the error; loading ends either way.
     */
    method HandleSceneHistory(answer: Option<seq<string>>)
      requires Valid()
      modifies this`sceneIds, this`error, this`isLoading
      ensures Valid()
      ensures !isLoading
      ensures answer.Some? ==> sceneIds == answer.value && error == old(error)
      ensures answer.None? ==> sceneIds == old(sceneIds) && error == Some(HistoryFailed)
    {
      if answer.Some? {
        sceneIds := answer.value;
      } else {
        error := Some(HistoryFailed);
      }
      isLoading := false;
    }

    /**
     * handlePreview, with `name` and `thumbnail` standing for the two retried requests (the
     * thumbnail as its object URL): an id already in the cache is left alone. Otherwise a name
     * first stores a preview without image; then a thumbnail stores the image with the fetched
     * name, or "Unknown" without one, and a missing thumbnail stores null. No other id changes.
     */
    method HandlePreview(sceneID: string, name: Option<string>, thumbnail: Option<string>)
      requires Valid()
      modifies this`previews
      ensures Valid()
      ensures sceneID in old(previews) ==> previews == old(previews)
      ensures sceneID !in old(previews) ==>
                previews == old(previews)[sceneID := LoadedPreview(name, thumbnail)]
    {
      if sceneID in previews {
        return;
      }
      if name.Some? {
        previews := previews[sceneID := Some(Preview("", name.value))];
      }
      if thumbnail.Some? {
        previews := previews[sceneID := Some(Preview(thumbnail.value, if name.Some? then name.value else UnknownName))];
      } else {
        previews := previews[sceneID := None];
      }
    }

    /** The page-size select: takes the new size and goes back to the first page. */
    method HandlePageSizeChange(size: nat)
      requires Valid() && size in PageSizes
      modifies this`scenesPerPage, this`currentPage
      ensures Valid()
      ensures scenesPerPage == size && currentPage == 1
    {
      scenesPerPage := size;
      currentPage := 1;
    }

    /** The pagination control: shows the chosen page. */
    method HandlePageChange(page: nat)
      requires Valid() && 1 <= page <= TotalPages(|sceneIds|, scenesPerPage)
      modifies this`currentPage
      ensures Valid()
      ensures currentPage == page
    {
      currentPage := page;
    }
  }

  /** The answer a map of answers holds for an id, or null when it holds none. */
  function AnswerFor(answers: map<string, Option<string>>, id: string): (r: Option<string>)
    ensures id !in answers ==> r.None?
    ensures id in answers ==> r == answers[id]
  {
    if id in answers then answers[id] else None
  }

  /**
   * The cache entry one preview load leaves for an id that had none: the thumbnail with the
   * fetched name, or "Unknown" without one; null when there is no thumbnail.
   */
  function LoadedPreview(name: Option<string>, thumbnail: Option<string>): (r: Option<Preview>)
    ensures r.Some? <==> thumbnail.Some?
    ensures r.Some? ==> r.value.image == thumbnail.value
    ensures r.Some? && name.Some? ==> r.value.name == name.value
    ensures r.Some? && name.None? ==> r.value.name == UnknownName
  {
    if thumbnail.Some? then Some(Preview(thumbnail.value, name.GetOr(UnknownName))) else None
  }

  /**
   * Loading the previews of the current page, one handlePreview per id the effect picks, makes
   * every id on it cached (so the effect picks nothing more) and keeps every earlier entry. The
   * only new entries are ids of the page, each holding the preview loaded from its answers.
   */
  method LoadCurrentPage(page: SceneHistoryPage, names: map<string, Option<string>>, thumbnails: map<string, Option<string>>)
    requires page.Valid()
    modifies page`previews
    ensures page.Valid()
    ensures forall id :: id in page.CurrentScenes() ==> id in page.previews
    ensures forall id :: id in old(page.previews) ==> id in page.previews && page.previews[id] == old(page.previews[id])
    ensures forall id :: id in page.previews ==> id in old(page.previews) || id in page.CurrentScenes()
    ensures forall id :: id in page.previews && id !in old(page.previews) ==>
              page.previews[id] == LoadedPreview(AnswerFor(names, id), AnswerFor(thumbnails, id))
  {
    var toLoad := page.PreviewsToLoad();
    for i := 0 to |toLoad|
      invariant forall id :: id in old(page.previews) ==> id in page.previews && page.previews[id] == old(page.previews[id])
      invariant forall j :: 0 <= j < i ==> toLoad[j] in page.previews
      invariant forall id :: id in page.previews ==> id in old(page.previews) || id in toLoad
      invariant forall id :: id in page.previews && id !in old(page.previews) ==>
                  page.previews[id] == LoadedPreview(AnswerFor(names, id), AnswerFor(thumbnails, id))
    {
      var id := toLoad[i];
      page.HandlePreview(id, AnswerFor(names, id), AnswerFor(thumbnails, id));
    }
  }
}
