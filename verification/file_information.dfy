/** `FileInformation(path)`: splitting a file path into directory segments,
    and the last segment into name and extension. Of what the constructor
    reads from the file system, only whether the path is an existing file is
    modelled (reading the size throws otherwise); the timestamps and the size
    themselves are not. */
module Files {
  import opened Wrappers
  import opened Text
  import opened Runtime

  /** `Constants.DirectoryDelimiter` and `Constants.ExtensionDelimiter`. */
  datatype Delimiters = Delimiters(directory: char, extension: char)

  /** The path-derived members: `Name`, `Extension` (null when the file has
      none) and `Path`. */
  datatype FileInformation = FileInformation(name: string, extension: Option<string>, path: seq<string>)

  /** The name/extension split of a file's last path segment: at the last
      extension delimiter, if there is one. */
  function SplitName(segment: string, e: char): (res: (string, Option<string>))
    ensures e !in segment ==> res == (segment, None)
    ensures e in segment ==>
              && res.1.Some?
              && res.0 + [e] + res.1.value == segment
              && e !in res.1.value
  {
    if e in segment then
      var i := LastIndexOf(segment, e);
      assert segment == segment[..i] + [e] + segment[i + 1..];
      (segment[..i], Some(segment[i + 1..]))
    else (segment, None)
  }

  /** A character absent from the segment is absent from its name. */
  lemma NameWithin(segment: string, e: char, c: char)
    requires c !in segment
    ensures c !in SplitName(segment, e).0
  {
    var name := SplitName(segment, e).0;
    if e in segment {
      assert name == segment[..LastIndexOf(segment, e)];
    }
  }

  /** The split is at the last delimiter: a segment written as name, delimiter,
      extension with no delimiter in the extension splits into exactly those. */
  lemma SplitNameAtLast(name: string, e: char, extension: string)
    requires e !in extension
    ensures SplitName(name + [e] + extension, e) == (name, Some(extension))
  {
    var segment := name + [e] + extension;
    assert segment[|name|] == e;
    assert forall k :: |name| < k < |segment| ==> segment[k] != e by {
      forall k | |name| < k < |segment| ensures segment[k] != e {
        assert segment[k] == extension[k - |name| - 1];
      }
    }
    assert LastIndexOf(segment, e) == |name|;
    assert segment[..|name|] == name;
    assert segment[|name| + 1..] == extension;
  }

  /** The path constructor: an empty or whitespace path is rejected; a path
      that `isFile` says is not an existing file (a missing file or a
      directory) fails when its size is read; otherwise `Path` is the path
      split at the directory delimiter and `Name`/`Extension` come from its
      last segment. */
  function FromPath(path: string, d: Delimiters, isFile: string -> bool): (res: Result<FileInformation, Fault>)
    ensures res.Err? <==> IsBlank(path) || !isFile(path)
    ensures IsBlank(path) ==> res == Err(InvalidPath(path))
    ensures !IsBlank(path) && !isFile(path) ==> res == Err(FileNotFound(path))
    ensures res.Ok? ==> |res.value.path| >= 1
    ensures res.Ok? ==>
              var info := res.value;
              var last := info.path[|info.path| - 1];
              && Join(info.path, d.directory) == path
              && (forall i :: 0 <= i < |info.path| ==> d.directory !in info.path[i])
              && d.directory !in info.name
              && (d.extension !in last ==> info.name == last && info.extension.None?)
              && (d.extension in last ==>
                    && info.extension.Some?
                    && info.name + [d.extension] + info.extension.value == last
                    && d.extension !in info.extension.value)
  {
    if IsBlank(path) then Err(InvalidPath(path))
    else if !isFile(path) then Err(FileNotFound(path))
    else
      var parts := Split(path, d.directory);
      JoinSplit(path, d.directory);
      var last := parts[|parts| - 1];
      NameWithin(last, d.extension, d.directory);
      var (name, extension) := SplitName(last, d.extension);
      Ok(FileInformation(name, extension, parts))
  }

  /** Joining directory segments and reading the result back gives the same
      segments, provided the joined path is not blank and names a file. */
  lemma SegmentsRoundTrip(parts: seq<string>, d: Delimiters, isFile: string -> bool)
    requires |parts| >= 1 && forall i :: 0 <= i < |parts| ==> d.directory !in parts[i]
    requires !IsBlank(Join(parts, d.directory)) && isFile(Join(parts, d.directory))
    ensures FromPath(Join(parts, d.directory), d, isFile).Ok?
    ensures FromPath(Join(parts, d.directory), d, isFile).value.path == parts
  {
    SplitJoin(parts, d.directory);
  }

  /** A path whose last segment is name, delimiter, extension (with no
      delimiter in the extension) yields exactly that name and extension. */
  lemma NameAndExtension(directory: string, name: string, extension: string, d: Delimiters, isFile: string -> bool)
    requires d.directory !in name && d.directory !in extension && d.extension !in extension
    requires d.directory != d.extension
    requires var path := directory + [d.directory] + name + [d.extension] + extension;
             !IsBlank(path) && isFile(path)
    ensures var info := FromPath(directory + [d.directory] + name + [d.extension] + extension, d, isFile);
            info.Ok? && info.value.name == name && info.value.extension == Some(extension)
  {
    var path := directory + [d.directory] + name + [d.extension] + extension;
    var last := name + [d.extension] + extension;
    assert path == (directory + [d.directory]) + last;
    assert d.directory !in last;
    LastSegment(directory, last, d.directory);
    SplitNameAtLast(name, d.extension, extension);
  }

  /** The last segment of `prefix`, separator, `last` is `last` when `last`
      holds no separator. */
  lemma LastSegment(prefix: string, last: string, sep: char)
    requires sep !in last
    ensures var parts := Split(prefix + [sep] + last, sep);
            parts[|parts| - 1] == last
  {
    SplitAround(prefix, last, sep);
  }
}
