/**
 * The command line: which of listing the profiles, enhancing a folder or
 * enhancing one photo a set of options selects, and the exit status.
 */
module Cli {
  import opened Wrappers
  import opened Files
  import opened Profiles
  import opened Discovery
  import Adjustments
  import Pipeline
  import Batch

  /** The parsed options; an option left out is None. */
  datatype Args = Args(
    input: Option<string>,
    output: Option<string>,
    folder: Option<string>,
    profile: Option<string>,
    listProfiles: bool,
    noSubfolder: bool)

  /** Python truthiness of an optional string: given and not empty. */
  predicate Given(o: Option<string>) {
    o.Some? && o.value != ""
  }

  datatype Command =
    | ListProfiles
    | Usage(code: int)
    | ProcessFolder(folder: Path, output: Path, profileName: string, createSubfolder: bool)
    | ProcessPhoto(input: Path, output: Path, profileName: string)

  /** argparse's `choices` on `--profile`: a value outside the catalog ends parsing. */
  predicate BadChoice(a: Args) {
    a.profile.Some? && !Known(a.profile.value)
  }

  /** Whether the option checks of `main` let the run reach processing. */
  predicate Complete(a: Args) {
    Given(a.folder) != Given(a.input) && Given(a.profile) && Given(a.output)
  }

  /** The command `main` carries out for the options. */
  function Dispatch(a: Args): (c: Command)
    ensures c == Usage(2) <==> BadChoice(a)
    ensures c == ListProfiles <==> !BadChoice(a) && a.listProfiles
    ensures c == Usage(1) <==> !BadChoice(a) && !a.listProfiles && !Complete(a)
    ensures c.ProcessFolder? <==> !BadChoice(a) && !a.listProfiles && Complete(a) && Given(a.folder)
    ensures c.ProcessPhoto? <==> !BadChoice(a) && !a.listProfiles && Complete(a) && Given(a.input)
    ensures c.ProcessFolder? ==>
      c == ProcessFolder(a.folder.value, a.output.value, a.profile.value, !a.noSubfolder) && Known(c.profileName)
    ensures c.ProcessPhoto? ==> c == ProcessPhoto(a.input.value, a.output.value, a.profile.value) && Known(c.profileName)
  {
    if BadChoice(a) then Usage(2)
    else if a.listProfiles then ListProfiles
    else if Given(a.folder) && Given(a.input) then Usage(1)
    else if !Given(a.folder) && !Given(a.input) then Usage(1)
    else if !Given(a.profile) then Usage(1)
    else if !Given(a.output) then Usage(1)
    else if Given(a.folder) then ProcessFolder(a.folder.value, a.output.value, a.profile.value, !a.noSubfolder)
    else ProcessPhoto(a.input.value, a.output.value, a.profile.value)
  }

  /** Whether `enhance_folder` returns without raising for a known profile. */
  predicate FolderCompletes(fs: FileSystem, folder: Path, output: Path, profileName: string, createSubfolder: bool) {
    fs.pathExists(folder) && fs.makeDirs(Batch.OutputDir(output, profileName, createSubfolder))
  }

  /** Whether the command finishes without an exception reaching `main`. */
  predicate Finishes(fs: FileSystem, tk: Adjustments.Toolkit, c: Command) {
    match c
    case ListProfiles => true
    case Usage(_) => false
    case ProcessFolder(folder, output, name, sub) => FolderCompletes(fs, folder, output, name, sub)
    case ProcessPhoto(input, output, name) => Known(name) && Pipeline.PhotoSucceeds(fs, tk, Catalog[name], input, output)
  }

  /**
   * `main`: the exit status is 2 for a profile outside the catalog, 1 for
   * missing or clashing options and for an exception while processing,
   * and 0 otherwise, even when single images of a folder fail.
   */
  method Run(fs: FileSystem, tk: Adjustments.Toolkit, order: seq<string>, a: Args) returns (code: int, log: seq<Effect>)
    requires IsSetOrder(order)
    ensures code == 0 || code == 1 || code == 2
    ensures code == 2 <==> BadChoice(a)
    ensures code == 0 <==> Finishes(fs, tk, Dispatch(a))
    ensures !Dispatch(a).ProcessFolder? && !Dispatch(a).ProcessPhoto? ==> log == []
  {
    var c := Dispatch(a);
    match c {
      case ListProfiles =>
        code, log := 0, [];
      case Usage(k) =>
        code, log := k, [];
      case ProcessFolder(folder, output, name, sub) =>
        var r;
        r, log := Batch.EnhanceFolder(fs, tk, order, folder, output, name, sub);
        code := if r.Success? then 0 else 1;
      case ProcessPhoto(input, output, name) =>
        var r;
        r, log := Pipeline.EnhancePhoto(fs, tk, input, output, name);
        code := if r.Pass? then 0 else 1;
    }
  }
}
