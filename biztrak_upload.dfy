/** The BizTrak upload panel: a drop zone and file card driven by drag, drop, select, upload and clear events. */
module BizTrakUpload {
  import opened Wrappers

  datatype UploadStatus = Idle | Uploading | Success | Error

  /** The browser `File` as far as the panel uses it. */
  datatype File = File(name: string, size: nat)

  /** What the drop zone shows. */
  datatype ZoneView = Picker | FileCard(file: File, processButton: bool, progressBar: bool, successNotice: bool)

  /** The component's three state cells, plus the number of upload timers scheduled and not yet fired. */
  class UploadPanel {
    var dragActive: bool
    var status: UploadStatus
    var selectedFile: Option<File>
    var pendingTimers: nat

    /** The panel never reaches `Error`, and while it shows `Uploading` a timer is still due to fire. */
    predicate Valid()
      reads this
    {
      status != Error && (status == Uploading ==> pendingTimers > 0)
    }

    constructor ()
      ensures !dragActive && status == Idle && selectedFile == None && pendingTimers == 0
      ensures Valid()
    {
      dragActive := false;
      status := Idle;
      selectedFile := None;
      pendingTimers := 0;
    }

    /** The 'Process & Validate Data' button is on screen only with a selected file and status idle. */
    predicate ProcessButtonShown()
      reads this
    {
      selectedFile.Some? && status == Idle
    }

    /** The drop zone: the picker while no file is selected, otherwise the file card with at most one
        of the process button, the progress bar and the success notice, chosen by the status. */
    function Zone(): (z: ZoneView)
      reads this
      ensures z.Picker? <==> selectedFile.None?
      ensures z.FileCard? ==> z.file == selectedFile.value
      ensures z.FileCard? ==> (z.processButton <==> status == Idle)
      ensures z.FileCard? ==> (z.progressBar <==> status == Uploading)
      ensures z.FileCard? ==> (z.successNotice <==> status == Success)
      ensures z.FileCard? ==> !(z.processButton && z.progressBar)
      ensures z.FileCard? ==> !(z.processButton && z.successNotice) && !(z.progressBar && z.successNotice)
      ensures (z.FileCard? && z.processButton) <==> ProcessButtonShown()
    {
      match selectedFile
      case None => Picker
      case Some(f) => FileCard(f, status == Idle, status == Uploading, status == Success)
    }

    /** `handleDrag`: 'dragenter' and 'dragover' raise the highlight, 'dragleave' drops it, anything else leaves it. */
    method HandleDrag(eventType: string)
      requires Valid()
      modifies this
      ensures eventType == "dragenter" || eventType == "dragover" ==> dragActive
      ensures eventType == "dragleave" ==> !dragActive
      ensures eventType != "dragenter" && eventType != "dragover" && eventType != "dragleave" ==>
        dragActive == old(dragActive)
      ensures status == old(status) && selectedFile == old(selectedFile) && pendingTimers == old(pendingTimers)
      ensures Valid()
    {
      if eventType == "dragenter" || eventType == "dragover" {
        dragActive := true;
      } else if eventType == "dragleave" {
        dragActive := false;
      }
    }

    /** `handleFile`: select the file and reset the status to idle. */
    method HandleFile(file: File)
      requires Valid()
      modifies this
      ensures selectedFile == Some(file) && status == Idle
      ensures dragActive == old(dragActive) && pendingTimers == old(pendingTimers)
      ensures Valid()
    {
      selectedFile := Some(file);
      status := Idle;
    }

    /** `handleDrop`: the highlight always goes; the first dropped file, if there is one, is selected. */
    method HandleDrop(files: seq<File>)
      requires Valid()
      modifies this
      ensures !dragActive
      ensures |files| > 0 ==> selectedFile == Some(files[0]) && status == Idle
      ensures |files| == 0 ==> selectedFile == old(selectedFile) && status == old(status)
      ensures pendingTimers == old(pendingTimers)
      ensures Valid()
    {
      dragActive := false;
      if |files| > 0 {
        HandleFile(files[0]);
      }
    }

    /** `handleChange` on the hidden file input: the first chosen file, if there is one, is selected. */
    method HandleChange(files: seq<File>)
      requires Valid()
      modifies this
      ensures |files| > 0 ==> selectedFile == Some(files[0]) && status == Idle
      ensures |files| == 0 ==> selectedFile == old(selectedFile) && status == old(status)
      ensures dragActive == old(dragActive) && pendingTimers == old(pendingTimers)
      ensures Valid()
    {
      if |files| > 0 {
        HandleFile(files[0]);
      }
    }

    /** `uploadFile`: show the progress bar and schedule the completion timer. */
    method UploadFile()
      requires Valid()
      modifies this
      ensures status == Uploading && pendingTimers == old(pendingTimers) + 1
      ensures dragActive == old(dragActive) && selectedFile == old(selectedFile)
      ensures Valid()
    {
      status := Uploading;
      pendingTimers := pendingTimers + 1;
    }

    /** A click on the 'Process & Validate Data' button, which can only be clicked while it is shown:
        the card swaps the button for the progress bar. */
    method ClickProcess()
      requires Valid() && ProcessButtonShown()
      modifies this
      ensures status == Uploading && pendingTimers == old(pendingTimers) + 1
      ensures dragActive == old(dragActive) && selectedFile == old(selectedFile)
      ensures Zone() == FileCard(old(selectedFile).value, false, true, false)
      ensures Valid()
    {
      UploadFile();
    }

    /** A scheduled timer fires: the status becomes success whatever happened in between. */
    method CompleteUpload()
      requires Valid() && pendingTimers > 0
      modifies this
      ensures status == Success && pendingTimers == old(pendingTimers) - 1
      ensures dragActive == old(dragActive) && selectedFile == old(selectedFile)
      ensures Valid()
    {
      status := Success;
      pendingTimers := pendingTimers - 1;
    }

    /** While the panel shows `Uploading` a timer is still due, so the upload always completes. */
    method FinishUpload()
      requires Valid() && status == Uploading
      modifies this
      ensures status == Success && pendingTimers == old(pendingTimers) - 1
      ensures dragActive == old(dragActive) && selectedFile == old(selectedFile)
      ensures Valid()
    {
      CompleteUpload();
    }

    /** The clear button on the file card: the file goes, the status stays. */
    method ClearFile()
      requires Valid()
      modifies this
      ensures selectedFile == None
      ensures status == old(status) && dragActive == old(dragActive) && pendingTimers == old(pendingTimers)
      ensures Valid()
    {
      selectedFile := None;
    }
  }

  /** Select a file, start the upload and clear the file before the timer fires: the panel ends in
      success with no file, so the picker is back and no notice is shown. */
  method ClearDuringUpload(f: File) returns (status: UploadStatus, selected: Option<File>, zone: ZoneView)
    ensures status == Success && selected == None && zone == Picker
  {
    var p := new UploadPanel();
    p.HandleChange([f]);
    p.ClickProcess();
    p.ClearFile();
    p.CompleteUpload();
    status, selected, zone := p.status, p.selectedFile, p.Zone();
  }

  /** Start an upload of `f`, then pick `g` before the timer fires: `g` is reported as validated
      although it was never uploaded. */
  method ReselectDuringUpload(f: File, g: File) returns (status: UploadStatus, zone: ZoneView)
    ensures status == Success
    ensures zone == FileCard(g, false, false, true)
  {
    var p := new UploadPanel();
    p.HandleDrop([f]);
    p.ClickProcess();
    p.HandleDrop([g]);
    p.CompleteUpload();
    status, zone := p.status, p.Zone();
  }
}
