/**
 * Transcript persistence (`save_transcript_to_file`): the name is cut down
 * to its last path component, must end in ".txt", and the file is then
 * overwritten with the text.
 *
 * The filesystem is a map from file name (relative to the working
 * directory) to its full content.
 */
module Persist {
  import opened Wrappers
  import opened PyText

  type FileSystem = map<string, string>

  const DefaultFilename := "transcript.txt"
  const TxtSuffix := ".txt"
  const InvalidExtensionMessage := "Invalid file extension. Only .txt files are allowed."

  /** The `ValueError` raised for a name that does not end in ".txt". */
  datatype SaveError = InvalidExtension(message: string)

  /** The filesystem after the call, and the error the call raised, if any. */
  datatype SaveResult = SaveResult(fs: FileSystem, error: Option<SaveError>)

  /** The name actually written: the final path component of the requested one. */
  function SafeFilename(filename: string): (name: string)
    ensures '/' !in name
    ensures |name| <= |filename| && filename[|filename| - |name|..] == name
    ensures FollowsSlash(filename, name)
  {
    Basename(filename)
  }

  function SaveTranscript(fs: FileSystem, transcript: string, filename: string): (r: SaveResult)
    ensures r.error.None? <==> EndsWith(SafeFilename(filename), TxtSuffix)
    ensures r.error.Some? ==> r.fs == fs && r.error.value == InvalidExtension(InvalidExtensionMessage)
    ensures r.error.None? ==> r.fs.Keys == fs.Keys + {SafeFilename(filename)}
    ensures r.error.None? ==> r.fs[SafeFilename(filename)] == transcript
    ensures forall k :: k in fs && k != SafeFilename(filename) ==> k in r.fs && r.fs[k] == fs[k]
  {
    var name := SafeFilename(filename);
    if !EndsWith(name, TxtSuffix) then SaveResult(fs, Some(InvalidExtension(InvalidExtensionMessage)))
    else SaveResult(fs[name := transcript], None)
  }

  /** Reading a file back: its content, or `None` when it does not exist. */
  function ReadFile(fs: FileSystem, name: string): Option<string>
  {
    if name in fs then Some(fs[name]) else None
  }

  /** A successful save can be read back, byte for byte, under the safe name. */
  lemma SaveThenRead(fs: FileSystem, transcript: string, filename: string)
    requires SaveTranscript(fs, transcript, filename).error.None?
    ensures ReadFile(SaveTranscript(fs, transcript, filename).fs, SafeFilename(filename)) == Some(transcript)
  {
  }

  /** Saving the same text twice leaves the same files as saving it once. */
  lemma SaveIdempotent(fs: FileSystem, transcript: string, filename: string)
    ensures SaveTranscript(SaveTranscript(fs, transcript, filename).fs, transcript, filename)
            == SaveTranscript(fs, transcript, filename)
  {
  }

  /** Once the extension check passes, a save is exactly one map update. */
  lemma SaveIsUpdate(fs: FileSystem, transcript: string, filename: string)
    requires EndsWith(SafeFilename(filename), TxtSuffix)
    ensures SaveTranscript(fs, transcript, filename) == SaveResult(fs[SafeFilename(filename) := transcript], None)
  {
  }

  /** The file is overwritten, never appended to: its old content has no bearing on the result. */
  lemma SaveOverwrites(fs: FileSystem, transcript: string, filename: string, old1: string, old2: string)
    requires EndsWith(SafeFilename(filename), TxtSuffix)
    ensures SaveTranscript(fs[SafeFilename(filename) := old1], transcript, filename).fs
            == SaveTranscript(fs[SafeFilename(filename) := old2], transcript, filename).fs
  {
    var name := SafeFilename(filename);
    SaveIsUpdate(fs[name := old1], transcript, filename);
    SaveIsUpdate(fs[name := old2], transcript, filename);
    assert fs[name := old1][name := transcript] == fs[name := transcript];
    assert fs[name := old2][name := transcript] == fs[name := transcript];
  }

  /** Directory components in the requested name are ignored: `../x.txt` writes `x.txt`. */
  lemma DirectoryPartIgnored(fs: FileSystem, transcript: string, dir: string, name: string)
    requires '/' !in name
    ensures SaveTranscript(fs, transcript, dir + "/" + name) == SaveTranscript(fs, transcript, name)
  {
    BasenameAfterSlash(dir, name);
    BasenameOfPlainName(name);
  }

  /** No save ever creates a file whose name still contains a directory separator. */
  lemma NoFileOutsideDirectory(fs: FileSystem, transcript: string, filename: string, k: string)
    requires k in SaveTranscript(fs, transcript, filename).fs && k !in fs
    ensures '/' !in k
  {
  }

  /** Sanitising is idempotent: the safe name of a safe name is itself. */
  lemma SafeFilenameIdempotent(filename: string)
    ensures SafeFilename(SafeFilename(filename)) == SafeFilename(filename)
  {
    BasenameIdempotent(filename);
  }

  /** The default name is accepted, so a save with it always succeeds. */
  lemma DefaultFilenameAccepted(fs: FileSystem, transcript: string)
    ensures SaveTranscript(fs, transcript, DefaultFilename) == SaveResult(fs[DefaultFilename := transcript], None)
  {
    BasenameOfPlainName(DefaultFilename);
  }

  /** The repository's path-injection example: `../dangerous_file.txt` is written as `dangerous_file.txt`. */
  lemma ExamplePathInjection(fs: FileSystem)
    ensures SaveTranscript(fs, "Test content", "../dangerous_file.txt")
            == SaveResult(fs["dangerous_file.txt" := "Test content"], None)
  {
    var name := "dangerous_file" + TxtSuffix;
    assert name == "dangerous_file.txt";
    assert ".." + "/" + name == "../dangerous_file.txt";
    DirectoryPartIgnored(fs, "Test content", "..", name);
    BasenameOfPlainName(name);
    EndsWithAppended("dangerous_file", TxtSuffix);
  }

  /** The repository's wrong-extension example: `test.pdf` is rejected and nothing changes. */
  lemma ExampleWrongExtension(fs: FileSystem)
    ensures SaveTranscript(fs, "Test content", "test.pdf")
            == SaveResult(fs, Some(InvalidExtension(InvalidExtensionMessage)))
  {
    var name := "test.pdf";
    BasenameOfPlainName(name);
    assert name[|name| - 1] == 'f';
    assert !EndsWith(name, TxtSuffix);
  }
}
