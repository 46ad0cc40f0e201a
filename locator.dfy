/** Choosing the project bundle and checking that its descriptor exists. */
module Locator {
  import opened Results

  const DescriptorName: string := "project.pbxproj"

  /** `File.join(dir, name)`: one '/' between the two parts. */
  function JoinPath(dir: string, name: string): (r: string)
    ensures |r| > |name| && r[|r| - |name| - 1] == '/' && r[|r| - |name|..] == name
    ensures dir != [] && dir[|dir| - 1] == '/' ==> r[..|r| - |name|] == dir
    ensures (dir == [] || dir[|dir| - 1] != '/') ==> r[..|r| - |name|] == dir + "/"
  {
    if dir != [] && dir[|dir| - 1] == '/' then dir + name else dir + "/" + name
  }

  /** `params[:xcodeproj] || Dir["*.xcodeproj"].first`: the explicit path wins,
      otherwise the first entry of the directory listing, if any. */
  function ChosenDir(xcodeproj: Option<string>, listing: seq<string>): (r: Option<string>)
    ensures xcodeproj.Some? ==> r == xcodeproj
    ensures xcodeproj.None? && listing != [] ==> r == Some(listing[0])
    ensures r.None? <==> xcodeproj.None? && listing == []
  {
    if xcodeproj.Some? then xcodeproj
    else if listing != [] then Some(listing[0])
    else None
  }

  /** The project directory to open, or the error that stops the run before
      anything is read or changed. `existing` is the set of files on disk. */
  function Locate(xcodeproj: Option<string>, listing: seq<string>, existing: set<string>): (r: Result<string>)
    ensures ChosenDir(xcodeproj, listing).None? ==> r == Err(ProjectDirMissing)
    ensures r.Ok? <==> ChosenDir(xcodeproj, listing).Some? &&
                       JoinPath(ChosenDir(xcodeproj, listing).value, DescriptorName) in existing
    ensures r.Ok? ==> Some(r.value) == ChosenDir(xcodeproj, listing)
    ensures r.Err? && ChosenDir(xcodeproj, listing).Some? ==>
              r.error == ConfigurationNotFound(JoinPath(ChosenDir(xcodeproj, listing).value, DescriptorName))
  {
    match ChosenDir(xcodeproj, listing)
    case None => Err(ProjectDirMissing)
    case Some(dir) =>
      var path := JoinPath(dir, DescriptorName);
      if path in existing then Ok(dir) else Err(ConfigurationNotFound(path))
  }
}
