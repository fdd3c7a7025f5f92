/** The validation loop of `upload_files` in app/main.py: every file must
    be named `*.pdf` (in any letter case) and be at most 10 MiB; the first
    file that is not aborts the whole batch. */
module Uploads {
  import opened Text
  import opened Records

  const MAX_FILE_SIZE: nat := 10 * 1024 * 1024

  /** An uploaded part: its filename and the length of its body. */
  datatype Upload = Upload(filename: string, size: nat)

  /** The error the loop raises for `f`, if any: the suffix is checked
      before the size. */
  function Rejection(f: Upload): (e: Option<HttpError>)
    ensures e.None? <==> EndsWith(Lower(f.filename), ".pdf") && f.size <= MAX_FILE_SIZE
    ensures e.Some? ==> e.value.status in {400, 413}
    ensures e.Some? ==> (e.value.status == 400 <==> !EndsWith(Lower(f.filename), ".pdf"))
  {
    if !EndsWith(Lower(f.filename), ".pdf") then Some(HttpError(400, f.filename + " is not a PDF"))
    else if f.size > MAX_FILE_SIZE then Some(HttpError(413, f.filename + " exceeds 10 MB"))
    else None
  }

  predicate Accepted(f: Upload) {
    Rejection(f).None?
  }

  /** The position of the first file the loop rejects, or the batch length
      when it rejects none. */
  function FirstRejected(files: seq<Upload>): (k: nat)
    ensures k <= |files|
    ensures forall j :: 0 <= j < k ==> Accepted(files[j])
    ensures k < |files| ==> !Accepted(files[k])
  {
    if files == [] then 0
    else if !Accepted(files[0]) then 0
    else 1 + FirstRejected(files[1..])
  }

  /** The `for file in files` loop of `upload_files`: either every file is
      accepted and each gets a metadata record, in order, or the batch fails
      with the error of its first rejected file. `clock(k)` and `freshId(k)`
      stand for the `datetime.now()` and `uuid.uuid4()` drawn for file `k`. */
  method CollectInfos(files: seq<Upload>, clock: nat -> string, freshId: nat -> string)
    returns (r: Result<seq<FileMeta>, HttpError>)
    ensures r.Success? <==> forall k :: 0 <= k < |files| ==> Accepted(files[k])
    ensures r.Success? ==>
              && |r.value| == |files|
              && forall k :: 0 <= k < |files| ==> r.value[k] == FileMeta(files[k].filename, files[k].size, clock(k), freshId(k))
    ensures r.Failure? ==>
              var k := FirstRejected(files);
              k < |files| && r.error == Rejection(files[k]).value
  {
    var infos: seq<FileMeta> := [];
    var k := 0;
    while k < |files|
      invariant 0 <= k <= |files|
      invariant forall j :: 0 <= j < k ==> Accepted(files[j])
      invariant |infos| == k
      invariant forall j :: 0 <= j < k ==> infos[j] == FileMeta(files[j].filename, files[j].size, clock(j), freshId(j))
    {
      var rejection := Rejection(files[k]);
      if rejection.Some? {
        return Failure(rejection.value);
      }
      infos := infos + [FileMeta(files[k].filename, files[k].size, clock(k), freshId(k))];
      k := k + 1;
    }
    return Success(infos);
  }

  /** The size limit is inclusive: exactly 10 MiB passes, one byte more is
      refused with status 413; the suffix test ignores letter case. */
  lemma SizeBoundary(name: string)
    requires EndsWith(Lower(name), ".pdf")
    ensures Accepted(Upload(name, MAX_FILE_SIZE))
    ensures Rejection(Upload(name, MAX_FILE_SIZE + 1)) == Some(HttpError(413, name + " exceeds 10 MB"))
  {
  }

  /** `report.PDF` of 9 MiB is accepted; `notes.txt` is refused with 400
      and `report.pdf` of 11 MiB with 413. */
  lemma UploadExamples()
    ensures Accepted(Upload("report.PDF", 9 * 1024 * 1024))
    ensures Rejection(Upload("notes.txt", 10)) == Some(HttpError(400, "notes.txt is not a PDF"))
    ensures Rejection(Upload("report.pdf", 11 * 1024 * 1024)) == Some(HttpError(413, "report.pdf exceeds 10 MB"))
  {
    var upper := "report.PDF";
    assert Lower(upper)[|upper| - 4..] == ".pdf";
    var txt := "notes.txt";
    assert Lower(txt)[|txt| - 4..] != ".pdf" by {
      assert Lower(txt)[|txt| - 1] == 't';
    }
    assert txt + " is not a PDF" == "notes.txt is not a PDF";
    var lower := "report.pdf";
    assert Lower(lower)[|lower| - 4..] == ".pdf";
    assert lower + " exceeds 10 MB" == "report.pdf exceeds 10 MB";
  }
}
