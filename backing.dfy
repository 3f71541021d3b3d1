/**
 * The Android side of persistence, reduced to what the store observes:
 * a `SharedPreferences` file is a mutable string-to-string map, and the
 * application `Context` hands out one such object per file name.
 */
module Backing {

  /** One `SharedPreferences` file; `entries` is its committed contents. */
  class SharedPreferences {
    const name: string
    var entries: map<string, string>

    constructor (name: string)
      ensures this.name == name && entries == map[]
    {
      this.name := name;
      entries := map[];
    }
  }

  /** The application context: the `SharedPreferences` objects opened so far, by file name. */
  class Context {
    var files: map<string, SharedPreferences>

    ghost predicate Valid()
      reads this
    {
      forall n :: n in files ==> files[n].name == n
    }

    constructor ()
      ensures Valid() && files == map[]
    {
      files := map[];
    }

    /** `getSharedPreferences(name, MODE_PRIVATE)`: the same object for the same name, a new empty file otherwise. */
    method GetSharedPreferences(name: string) returns (prefs: SharedPreferences)
      requires Valid()
      modifies this
      ensures Valid()
      ensures prefs.name == name
      ensures files == old(files)[name := prefs]
      ensures name in old(files) ==> prefs == old(files)[name]
      ensures name !in old(files) ==> fresh(prefs) && prefs.entries == map[]
    {
      if name in files {
        prefs := files[name];
      } else {
        prefs := new SharedPreferences(name);
        files := files[name := prefs];
      }
    }
  }
}
