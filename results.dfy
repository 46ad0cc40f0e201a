/** Optional values, the errors the action can raise, and a result type that
    carries either a value or one of those errors. */
module Results {

  /** A parameter that may be absent. Ruby treats `nil` and `false` alike as
      "not given"; both are `None` here. */
  datatype Option<+T> = None | Some(value: T)

  /** Every way the action can stop early. */
  datatype Error =
    | ProjectDirMissing              // no explicit path and no `*.xcodeproj` entry found
    | ConfigurationNotFound(path: string)  // the project descriptor file does not exist
    | AppendToMissing                // append requested, specifier absent (`nil + String`)
    | AppendToList                   // append requested, specifier is a list (`Array + String`)
    | InfoPlistMissing               // display name requested, `INFOPLIST_FILE` absent
    | InfoPlistNotString             // display name requested, `INFOPLIST_FILE` is a list
    | PlistNotFound(path: string)    // no property list stored at that path
    | NoDictEntry                    // the document has no dictionary under "dict"

  datatype Result<+T> = Ok(value: T) | Err(error: Error)
}
