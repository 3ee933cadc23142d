/**
 * The job-progress part of the home page (src/Components/Home/Home.tsx): after an upload the
 * page polls the job's progress and notices when processing starts and when it ends.
 */
module Home {
  import opened Wrappers
  import opened Responses

  /** Some earlier accepted poll reported processing and a later one, right after it, did not. */
  ghost predicate FinishSeen(reports: seq<bool>) {
    exists i :: 0 <= i < |reports| - 1 && reports[i] && !reports[i + 1]
  }

  /** One more answer completes a finish exactly when it ends processing reported by the previous one. */
  lemma FinishSeenAppend(reports: seq<bool>, b: bool)
    ensures FinishSeen(reports + [b]) <==>
            FinishSeen(reports) || (|reports| > 0 && reports[|reports| - 1] && !b)
  {
    var rs := reports + [b];
    if FinishSeen(rs) {
      var i :| 0 <= i < |rs| - 1 && rs[i] && !rs[i + 1];
      assert rs[i] == reports[i];
      if i < |reports| - 1 {
        assert rs[i + 1] == reports[i + 1];
      }
    }
    if FinishSeen(reports) {
      var i :| 0 <= i < |reports| - 1 && reports[i] && !reports[i + 1];
      assert rs[i] && !rs[i + 1];
    }
    if |reports| > 0 && reports[|reports| - 1] && !b {
      assert rs[|reports| - 1] && !rs[|reports|];
    }
  }

  class HomeState {
    var sceneID: Option<string>
    var progress: Option<SceneProgress>
    var wasProcessing: bool
    var sceneFinished: bool
    /** The `processing` flags of the accepted poll answers, oldest first. */
    ghost var reports: seq<bool>

    /**
     * wasProcessing is the flag of the latest accepted answer, and sceneFinished records that
     * some answer reporting processing was followed by one that did not.
     */
    ghost predicate Valid()
      reads this
    {
      && wasProcessing == (|reports| > 0 && reports[|reports| - 1])
      && (sceneFinished <==> FinishSeen(reports))
    }

    constructor ()
      ensures Valid()
      ensures sceneID == None && progress == None && !wasProcessing && !sceneFinished && reports == []
    {
      sceneID := None;
      progress := None;
      wasProcessing := false;
      sceneFinished := false;
      reports := [];
    }

    /** Polling is set up only for a truthy scene id: present and non-empty. */
    predicate Polling()
      reads this
    {
      sceneID.Some? && sceneID.value != ""
    }

    /**
     * One tick of the interval, with `answer` standing for the retried progress request. Without
     * a scene id there is no interval and nothing happens; a null answer or one carrying an error
     * changes nothing; otherwise the answer becomes the progress, and the two flag updates both
     * test the old wasProcessing, so at most one of them fires.
     */
    method Poll(answer: Option<SceneProgress>)
      requires Valid()
      modifies this`progress, this`wasProcessing, this`sceneFinished, this`reports
      ensures Valid()
      ensures !Polling() || answer.None? || answer.value.meta.error != "" ==>
                && progress == old(progress) && wasProcessing == old(wasProcessing)
                && sceneFinished == old(sceneFinished) && reports == old(reports)
      ensures Polling() && answer.Some? && answer.value.meta.error == "" ==>
                && progress == answer
                && reports == old(reports) + [answer.value.processing]
                && wasProcessing == answer.value.processing
                && sceneFinished == (old(sceneFinished) || (old(wasProcessing) && !answer.value.processing))
    {
      if !Polling() || answer.None? || answer.value.meta.error != "" {
        return;
      }
      var p := answer.value;
      progress := answer;
      var was := wasProcessing;
      if !was && p.processing {
        wasProcessing := true;
      }
      if was && !p.processing {
        wasProcessing := false;
        sceneFinished := true;
      }
      FinishSeenAppend(reports, p.processing);
      reports := reports + [p.processing];
    }

    /** handleUpload: a job answer with an error leaves the scene id; otherwise its id is polled from now on. */
    method HandleUpload(newJobInfo: RequestMetaData)
      requires Valid()
      modifies this`sceneID
      ensures Valid()
      ensures newJobInfo.error != "" ==> sceneID == old(sceneID)
      ensures newJobInfo.error == "" ==> sceneID == Some(newJobInfo.id)
    {
      if newJobInfo.error != "" {
        return;
      }
      sceneID := Some(newJobInfo.id);
    }

    /** The finished flag is never cleared: no step resets it. */
    lemma FinishedOnlyAfterProcessing()
      requires Valid() && sceneFinished
      ensures exists i :: 0 <= i < |reports| && reports[i]
    {
      var i :| 0 <= i < |reports| - 1 && reports[i] && !reports[i + 1];
    }
  }

  /**
   * A job that is seen processing and then seen done is reported finished, whatever answers
   * came before.
   */
  method ProcessingThenDone(home: HomeState, busy: SceneProgress, done: SceneProgress)
    requires home.Valid() && home.Polling()
    requires busy.meta.error == "" && busy.processing
    requires done.meta.error == "" && !done.processing
    modifies home
    ensures home.Valid() && home.sceneFinished && !home.wasProcessing && home.progress == Some(done)
  {
    home.Poll(Some(busy));
    home.Poll(Some(done));
  }
}
