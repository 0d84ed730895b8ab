// The files of a submission over a whole run: what submit stored is what a
// grader gets, however much later the submission is pulled.
module FileTrip {
  import opened Collections
  import opened Submissions
  import opened Lifecycle
  import opened Json
  import opened FileDicts
  import opened Accounting

  /** Fetching the URL of a stored path returns what is stored there. */
  ghost predicate Serves(blobs: map<string, string>, u: Setup, fetch: string -> Option<string>) {
    forall path | path in blobs :: fetch(u.url(path)) == Some(blobs[path])
  }

  /** The external dictionary that a submission stored, if it stored one, was not overwritten since. */
  predicate StillHolds(blobs: map<string, string>, stored: map<string, string>, u: Setup, names: seq<string>) {
    Overflows(u, names) ==>
      DictPath(u, names) in blobs && DictPath(u, names) in stored
      && blobs[DictPath(u, names)] == stored[DictPath(u, names)]
  }

  /** A storage that returns what the upload left there is honest about the submission's dictionary. */
  lemma UploadedIsHonest(u: Setup, files: seq<Upload>, before: map<string, string>, blobs: map<string, string>,
                         fetch: string -> Option<string>)
    requires StillHolds(blobs, Uploaded(before, u, files), u, Names(files)) && Serves(blobs, u, fetch)
    ensures Honest(u, Names(files), fetch)
  {
  }

  lemma {:induction false} SubmissionStays(cfg: Config, r: Run, base: Run, id: Id)
    requires Extends(r, base) && Submission(base, id).Some?
    ensures Submission(r, id) == Submission(base, id)
  {
    if r != base {
      SubmissionStays(cfg, r.before, base, id);
      RowsKeepTheirOrigin(cfg, r.before, id);
    }
  }

  /** The whole trip: files are uploaded and their dictionary is stored with the submission.  At any later point
      of any run, if the row is still there and the storage still holds and serves the dictionary, a grader
      who pulls the row gets exactly the dumped URLs -- if the dictionary went to a document of its own, or no
      file name or URL contains the marker. */
  lemma FilesReachTheGrader(cfg: Config, before: Run, submit: Step, r: Run, u: Setup, files: seq<Upload>,
                            blobs0: map<string, string>, blobs: map<string, string>,
                            fetch: string -> Option<string>)
    requires submit.Submit? && Distinct(Names(files))
    requires Columns(submit.keys, submit.urls) == Encoded(u, Names(files))
    requires Extends(r, Then(before, submit)) && After(cfg, INIT, before).nextId in After(cfg, INIT, r).rows
    requires StillHolds(blobs, Uploaded(blobs0, u, files), u, Names(files)) && Serves(blobs, u, fetch)
    requires Overflows(u, Names(files)) || !MentionedIn(Names(files), UrlOf(u), URL_MARKER)
    ensures FilesForGrader(After(cfg, INIT, r).rows[After(cfg, INIT, before).nextId].urls, fetch)
            == Files(Dumps(Urls(u, Names(files))))
  {
    var id := After(cfg, INIT, before).nextId;
    RowsKeepTheirOrigin(cfg, before, id);
    assert Submission(Then(before, submit), id) == Some(submit);
    SubmissionStays(cfg, r, Then(before, submit), id);
    RowsKeepTheirOrigin(cfg, r, id);
    UploadedIsHonest(u, files, blobs0, blobs, fetch);
    if Overflows(u, Names(files)) {
      OverflowRoundTrip(u, Names(files), fetch);
    } else {
      InlineRoundTrip(u, Names(files), fetch);
    }
  }

  /** And the URL of each file serves that file's content, if no other path is the same. */
  lemma FileIsServed(u: Setup, files: seq<Upload>, before: map<string, string>, fetch: string -> Option<string>, i: nat)
    requires i < |files| && Serves(Uploaded(before, u, files), u, fetch)
    requires forall j | i < j < |files| ::
               JoinPath(u.queue, u.hash(u.header + files[j].name))
               != JoinPath(u.queue, u.hash(u.header + files[i].name))
    requires DictPath(u, Names(files)) != JoinPath(u.queue, u.hash(u.header + files[i].name))
    ensures fetch(u.url(JoinPath(u.queue, u.hash(u.header + files[i].name)))) == Some(files[i].content)
  {
    StoredFile(before, u, files, i);
    var path := JoinPath(u.queue, u.hash(u.header + files[i].name));
    assert path in Uploaded(before, u, files);
  }
}
