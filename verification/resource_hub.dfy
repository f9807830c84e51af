/**
 * The resource hub: the searchable, filterable list of shared files and the
 * upload dialog, whose transfer is simulated by a progress counter that an
 * interval steps by 10 and a timer completes.
 */
module ResourceHub {
  import opened Types
  import opened Strings
  import opened Seqs

  const Filters: seq<string> := ["All", "CSE", "CSBS", "ECE", "EEE", "ME", "EE", "Notes", "PYQ"]

  /** 25 MiB, the largest file the dialog accepts. */
  const MaxFileSize: int := 25 * 1024 * 1024

  /** `matchesSearch && matchesFilter` (ResourceHub.tsx:54-57). */
  predicate ResourceMatches(res: Resource, searchTerm: string, activeFilter: string)
  {
    && Contains(ToLower(res.title), ToLower(searchTerm))
    && (activeFilter == "All" || res.department == activeFilter || ResourceTypeName(res.kind) == activeFilter)
  }

  function Matching(searchTerm: string, activeFilter: string): Resource -> bool
  {
    (res: Resource) => ResourceMatches(res, searchTerm, activeFilter)
  }

  /** `filteredResources` (ResourceHub.tsx:53-59). */
  function FilteredResources(resources: seq<Resource>, searchTerm: string, activeFilter: string): (r: seq<Resource>)
    ensures forall res :: res in r <==>
      && res in resources
      && Contains(ToLower(res.title), ToLower(searchTerm))
      && (activeFilter == "All" || res.department == activeFilter || ResourceTypeName(res.kind) == activeFilter)
    ensures IsSubsequence(r, resources)
  {
    FilterIsSubsequence(resources, Matching(searchTerm, activeFilter));
    Filter(resources, Matching(searchTerm, activeFilter))
  }

  /** The picked file as the browser describes it. */
  datatype PickedFile = PickedFile(mimeType: string, size: int)

  /** The error `handleFileSelect` reports for a file, if any (ResourceHub.tsx:67-82). */
  function FileError(file: PickedFile): (error: Option<string>)
    ensures error == None <==> file.mimeType == "application/pdf" && file.size <= MaxFileSize
  {
    if file.mimeType != "application/pdf" then Some("Only PDF files are allowed")
    else if file.size > MaxFileSize then Some("File size must be less than 25MB")
    else None
  }

  /** A PDF of exactly 25 MiB is accepted; one byte more is not. */
  lemma FileSizeBoundary()
    ensures FileError(PickedFile("application/pdf", 26214400)) == None
    ensures FileError(PickedFile("application/pdf", 26214401)) == Some("File size must be less than 25MB")
  {
  }

  /** The interval's updater (ResourceHub.tsx:107-113). */
  function ProgressStep(progress: int): (next: int)
    ensures progress < 90 ==> next == progress + 10
    ensures progress >= 90 ==> next == 90
  {
    if progress >= 90 then 90 else progress + 10
  }

  /** The progress after `ticks` runs of the updater from 0. */
  function ProgressAfter(ticks: nat): int
  {
    if ticks == 0 then 0 else ProgressStep(ProgressAfter(ticks - 1))
  }

  /** The counter climbs by ten per tick and stops at 90. */
  lemma {:induction false} ProgressAfterTicks(ticks: nat)
    ensures ProgressAfter(ticks) == if 10 * ticks <= 90 then 10 * ticks else 90
  {
    if ticks > 0 {
      ProgressAfterTicks(ticks - 1);
    }
  }

  /** Where a started upload stands: transferring until the 2 s timer, finishing during the last 0.5 s. */
  datatype UploadPhase = Idle | Transferring | Finishing

  class Hub {
    var searchTerm: string
    var activeFilter: string
    var isUploadModalOpen: bool
    var resources: seq<Resource>
    var title: string
    var department: string
    var year: string
    var kind: ResourceType
    var author: string
    var selectedFile: Option<PickedFile>
    var uploadProgress: int
    var isUploading: bool
    var uploadError: string
    /** Whether the progress interval is still scheduled. */
    var ticking: bool
    var phase: UploadPhase

    /**
     * The upload flags agree with the phase, and while the transfer runs the
     * progress is a multiple of ten no higher than 90.
     */
    ghost predicate Valid()
      reads this
    {
      && isUploading == (phase != Idle)
      && (ticking ==> phase == Transferring)
      && (phase == Transferring ==> 0 <= uploadProgress <= 90 && uploadProgress % 10 == 0)
      && (phase == Transferring && !ticking ==> uploadProgress == 90)
      && (phase == Finishing ==> uploadProgress == 100)
    }

    /** `resources` is what local storage held, or the default list. */
    constructor (initial: seq<Resource>)
      ensures Valid() && resources == initial && searchTerm == "" && activeFilter == "All"
      ensures !isUploadModalOpen && phase == Idle && uploadProgress == 0 && selectedFile == None && uploadError == ""
      ensures title == "" && department == "CSE" && year == "1st Year" && kind == PDF && author == ""
    {
      searchTerm := "";
      activeFilter := "All";
      isUploadModalOpen := false;
      resources := initial;
      title, department, year, kind, author := "", "CSE", "1st Year", PDF, "";
      selectedFile := None;
      uploadProgress := 0;
      isUploading := false;
      uploadError := "";
      ticking := false;
      phase := Idle;
    }

    /** `handleFileSelect` (ResourceHub.tsx:61-85); `file` is the first picked file, if any. */
    method FileSelect(file: Option<PickedFile>)
      requires Valid()
      modifies this`uploadError, this`selectedFile
      ensures Valid()
      ensures file.None? ==> uploadError == "" && selectedFile == old(selectedFile)
      ensures file.Some? && FileError(file.value).Some? ==> uploadError == FileError(file.value).value && selectedFile == None
      ensures file.Some? && FileError(file.value).None? ==> uploadError == "" && selectedFile == file
    {
      uploadError := "";
      if file.None? {
        return;
      }
      var f := file.value;
      if f.mimeType != "application/pdf" {
        uploadError := "Only PDF files are allowed";
        selectedFile := None;
        return;
      }
      if f.size > MaxFileSize {
        uploadError := "File size must be less than 25MB";
        selectedFile := None;
        return;
      }
      selectedFile := file;
    }

    /** `handleUpload` up to the scheduling of its timers (ResourceHub.tsx:95-114); the button is disabled while uploading. */
    method Upload()
      requires Valid() && !isUploading
      modifies this`isUploading, this`uploadProgress, this`uploadError, this`ticking, this`phase
      ensures Valid() && resources == old(resources)
      ensures title == "" || author == "" || selectedFile == None ==>
        uploadError == "Please fill in all fields and select a PDF file"
        && phase == Idle && uploadProgress == old(uploadProgress)
      ensures title != "" && author != "" && selectedFile != None ==>
        phase == Transferring && ticking && uploadProgress == 0 && uploadError == ""
    {
      if title == "" || author == "" || selectedFile == None {
        uploadError := "Please fill in all fields and select a PDF file";
        return;
      }
      isUploading := true;
      uploadProgress := 0;
      uploadError := "";
      ticking := true;
      phase := Transferring;
    }

    /** One run of the progress interval: the updater, which cancels the interval once it reaches 90. */
    method ProgressTick()
      requires Valid() && ticking
      modifies this`uploadProgress, this`ticking
      ensures Valid()
      ensures uploadProgress == ProgressStep(old(uploadProgress)) && uploadProgress <= 90
      ensures ticking == (old(uploadProgress) < 90)
    {
      if uploadProgress >= 90 {
        ticking := false;
        uploadProgress := 90;
      } else {
        uploadProgress := uploadProgress + 10;
      }
    }

    /**
     * The 2 s timer (ResourceHub.tsx:117-134): the interval is cancelled, the
     * progress jumps to 100 and the new resource, with random `id` and the
     * formatted size `sizeLabel`, goes in front of the list.
     */
    method CompleteUpload(id: string, sizeLabel: string)
      requires Valid() && phase == Transferring
      modifies this`uploadProgress, this`ticking, this`resources, this`phase
      ensures Valid() && phase == Finishing && !ticking && uploadProgress == 100
      ensures resources == [Resource(id, title, department, year, kind, sizeLabel, 0, author)] + old(resources)
    {
      ticking := false;
      uploadProgress := 100;
      var added := Resource(id, title, department, year, kind, sizeLabel, 0, author);
      resources := [added] + resources;
      phase := Finishing;
    }

    /** The 0.5 s timer after completion (ResourceHub.tsx:137-149). */
    method FinishUpload()
      requires Valid() && phase == Finishing
      modifies this
      ensures Valid() && phase == Idle && !isUploading && uploadProgress == 0 && !isUploadModalOpen
      ensures title == "" && department == "CSE" && year == "1st Year" && kind == PDF && author == "" && selectedFile == None
      ensures resources == old(resources) && searchTerm == old(searchTerm) && activeFilter == old(activeFilter)
      ensures uploadError == old(uploadError)
    {
      isUploading := false;
      uploadProgress := 0;
      isUploadModalOpen := false;
      title, department, year, kind, author := "", "CSE", "1st Year", PDF, "";
      selectedFile := None;
      phase := Idle;
    }

    /** `closeModal` (ResourceHub.tsx:153-167): does nothing while an upload is in progress. */
    method CloseModal()
      requires Valid()
      modifies this
      ensures Valid()
      ensures old(isUploading) ==>
        isUploadModalOpen == old(isUploadModalOpen) && title == old(title) && author == old(author)
        && department == old(department) && year == old(year) && kind == old(kind)
        && isUploading == old(isUploading) && selectedFile == old(selectedFile) && uploadError == old(uploadError) && uploadProgress == old(uploadProgress)
        && phase == old(phase) && ticking == old(ticking)
      ensures !old(isUploading) ==>
        && !isUploadModalOpen && selectedFile == None && uploadError == "" && uploadProgress == 0
        && title == "" && department == "CSE" && year == "1st Year" && kind == PDF && author == ""
        && phase == Idle
      ensures resources == old(resources) && searchTerm == old(searchTerm) && activeFilter == old(activeFilter)
    {
      if !isUploading {
        isUploadModalOpen := false;
        title, department, year, kind, author := "", "CSE", "1st Year", PDF, "";
        selectedFile := None;
        uploadError := "";
        uploadProgress := 0;
      }
    }
  }

  /**
   * A full upload: whatever number of interval runs happen before the 2 s
   * timer, the progress shown never passes 90 until completion sets it to
   * 100, and the list then holds the new resource in front of the old ones.
   */
  method UploadRun(hub: Hub, ticks: nat, id: string, sizeLabel: string) returns (highest: int)
    requires hub.Valid() && !hub.isUploading
    requires hub.title != "" && hub.author != "" && hub.selectedFile != None
    modifies hub
    ensures hub.Valid() && hub.phase == Idle
    ensures highest == (if 10 * ticks <= 90 then 10 * ticks else 90) && highest <= 90
    ensures |hub.resources| == |old(hub.resources)| + 1 && hub.resources[1..] == old(hub.resources)
    ensures hub.resources[0].downloads == 0 && hub.resources[0].title == old(hub.title) && hub.resources[0].author == old(hub.author)
  {
    var before := hub.resources;
    var t, a := hub.title, hub.author;
    hub.Upload();
    var n := 0;
    while n < ticks && hub.ticking
      invariant 0 <= n <= ticks && hub.Valid() && hub.phase == Transferring
      invariant hub.resources == before && hub.title == t && hub.author == a
      invariant hub.uploadProgress == ProgressAfter(n)
      invariant !hub.ticking ==> hub.uploadProgress == 90
    {
      hub.ProgressTick();
      n := n + 1;
    }
    ProgressAfterTicks(n);
    ProgressAfterTicks(ticks);
    if !hub.ticking && n < ticks {
      ProgressStopsAt90(n, ticks);
    }
    highest := hub.uploadProgress;
    hub.CompleteUpload(id, sizeLabel);
    hub.FinishUpload();
  }

  /** Once the counter has reached 90 it stays there. */
  lemma ProgressStopsAt90(n: nat, ticks: nat)
    requires n <= ticks && ProgressAfter(n) == 90
    ensures ProgressAfter(ticks) == 90
  {
    ProgressAfterTicks(n);
    ProgressAfterTicks(ticks);
  }
}
