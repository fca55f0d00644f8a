/** File names of the configuration directories the controllers read. */
module Paths {

  /** `Path.Combine(dir, file)` with '/' as the separator: no separator is doubled or added to an empty directory. */
  function Combine(dir: string, file: string): (path: string)
    ensures |path| >= |file| && path[|path| - |file|..] == file
    ensures |dir| <= |path| && path[..|dir|] == dir
  {
    if |dir| == 0 then file
    else if dir[|dir| - 1] == '/' then dir + file
    else dir + "/" + file
  }
}
