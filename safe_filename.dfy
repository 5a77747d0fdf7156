/** The "safe filename" comprehension that both playlist scripts apply to a playlist's
    name before writing their CSV file: every character that is not alphanumeric, a space,
    `-` or `_` becomes `_`. */
module SafeFilename {

  /** `c.isalnum()`, restricted to ASCII letters and digits. */
  predicate IsAlnum(c: char) {
    ('a' <= c <= 'z') || ('A' <= c <= 'Z') || ('0' <= c <= '9')
  }

  /** The characters the comprehension keeps: `c.isalnum() or c in [" ", "-", "_"]`. */
  predicate Allowed(c: char) {
    IsAlnum(c) || c == ' ' || c == '-' || c == '_'
  }

  /** `"".join([c if ... else "_" for c in name])`. */
  function SafeName(name: string): (safe: string)
    ensures |safe| == |name|
    ensures forall i :: 0 <= i < |safe| ==> Allowed(safe[i])
    ensures forall i :: 0 <= i < |name| ==> (Allowed(name[i]) <==> safe[i] == name[i])
    ensures forall i :: 0 <= i < |name| && !Allowed(name[i]) ==> safe[i] == '_'
  {
    seq(|name|, i requires 0 <= i < |name| => if Allowed(name[i]) then name[i] else '_')
  }

  /** A name made of allowed characters only is its own safe name. */
  lemma {:induction false} SafeNameFixesAllowed(name: string)
    requires forall i :: 0 <= i < |name| ==> Allowed(name[i])
    ensures SafeName(name) == name
  {
    var safe := SafeName(name);
    assert forall i :: 0 <= i < |name| ==> safe[i] == name[i];
  }

  /** Sanitising is idempotent. */
  lemma {:induction false} SafeNameIdempotent(name: string)
    ensures SafeName(SafeName(name)) == SafeName(name)
  {
    SafeNameFixesAllowed(SafeName(name));
  }

  /** The safe name contains no path separator and no dot, so the file name built from it
      names a file in the current directory whatever the playlist is called. */
  lemma {:induction false} SafeNameHasNoPathSyntax(name: string)
    ensures '/' !in SafeName(name) && '\\' !in SafeName(name) && '.' !in SafeName(name)
  {
    var safe := SafeName(name);
    forall i | 0 <= i < |safe|
      ensures safe[i] != '/' && safe[i] != '\\' && safe[i] != '.'
    {
      assert Allowed(safe[i]);
    }
  }

  /** `f"{safe_name}{suffix}"`, the CSV file name a script writes; with a suffix free of
      path separators it never leaves the current directory. */
  function OutputFile(playlistName: string, suffix: string): (file: string)
    ensures |file| == |playlistName| + |suffix|
    ensures file[..|playlistName|] == SafeName(playlistName)
    ensures file[|playlistName|..] == suffix
    ensures EndsIn(file, suffix)
    ensures '/' !in suffix ==> '/' !in file
  {
    SafeNameHasNoPathSyntax(playlistName);
    SafeName(playlistName) + suffix
  }

  predicate EndsIn(s: string, suffix: string) {
    |suffix| <= |s| && s[|s| - |suffix|..] == suffix
  }
}
