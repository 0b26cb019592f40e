/** The naming rule of a stored test-case file: the extension follows the file type, and the
    full name appends it only when the name does not already end with it. */
module TestCaseFiles {
  import opened Wrappers
  import opened Strings

  /** The FileType enum; a file whose type is not set yet has None. */
  datatype FileType = Feature | Yaml

  /** The enum member's value as stored in the database. */
  function TypeValue(t: FileType): string {
    match t
    case Feature => "feature"
    case Yaml => "yaml"
  }

  /** The file_extension property. */
  function FileExtension(fileType: Option<FileType>): (ext: string)
    ensures fileType.None? ==> ext == ""
  {
    match fileType
    case Some(Feature) => ".feature"
    case Some(Yaml) => ".yaml"
    case None => ""
  }

  /** The full_name property: the name with the extension, added only when missing. */
  function FullName(name: string, fileType: Option<FileType>): (r: string)
    ensures EndsWith(r, FileExtension(fileType))
    ensures StartsWith(r, name)
    ensures EndsWith(name, FileExtension(fileType)) ==> r == name
    ensures !EndsWith(name, FileExtension(fileType)) ==> r == name + FileExtension(fileType)
  {
    var ext := FileExtension(fileType);
    if EndsWith(name, ext) then name
    else
      assert (name + ext)[|name + ext| - |ext|..] == ext;
      assert (name + ext)[..|name|] == name;
      name + ext
  }

  /** Each type's extension is a dot followed by the type's stored value. */
  lemma ExtensionNamesType(t: FileType)
    ensures FileExtension(Some(t)) == "." + TypeValue(t)
    ensures FileExtension(Some(t)) != ""
  {
  }

  /** The two extensions differ, so the type can be read back from a non-empty extension. */
  lemma ExtensionDeterminesType(t1: FileType, t2: FileType)
    requires FileExtension(Some(t1)) == FileExtension(Some(t2))
    ensures t1 == t2
  {
  }

  /** Recomputing the full name on its own output changes nothing. */
  lemma FullNameIdempotent(name: string, fileType: Option<FileType>)
    ensures FullName(FullName(name, fileType), fileType) == FullName(name, fileType)
  {
  }

  /** The extension is appended at most once: the full name is at most one extension longer
      than the name. */
  lemma FullNameLength(name: string, fileType: Option<FileType>)
    ensures |name| <= |FullName(name, fileType)| <= |name| + |FileExtension(fileType)|
  {
  }
}
