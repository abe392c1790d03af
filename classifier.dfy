/** The entry-type classifier: `get_file_type_icon_from_metadata` picks a glyph and a
    colour from three type predicates of an entry's metadata. */
module Classifier {
  import opened Style

  /** The part of `std::fs::Metadata` the listing reads. The type flags come from
      `DirEntry::metadata`, which describes a link itself rather than its target.
      `len` is the byte length and `accessed` the access time, an opaque timestamp. */
  datatype Metadata = Metadata(isDir: bool, isFile: bool, isSymlink: bool, len: nat, accessed: int)

  const UnknownIcon := Styled("?", BrightWhite)
  const DirIcon := Styled("\U{F413}", Green)
  const FileIcon := Styled("\U{EA7B}", Blue)
  const SymlinkIcon := Styled("\U{EA9C}", Yellow)

  /** The four results the classifier can give. */
  predicate IsIcon(s: Styled) {
    s == UnknownIcon || s == DirIcon || s == FileIcon || s == SymlinkIcon
  }

  /** The category an entry is shown as. A later test in the source overrides an
      earlier one, so a link outranks a file and a file outranks a directory. */
  datatype Kind = Unknown | Directory | RegularFile | Symlink

  function KindOf(m: Metadata): Kind {
    if m.isSymlink then Symlink
    else if m.isFile then RegularFile
    else if m.isDir then Directory
    else Unknown
  }

  function KindIcon(k: Kind): Styled {
    match k
    case Unknown => UnknownIcon
    case Directory => DirIcon
    case RegularFile => FileIcon
    case Symlink => SymlinkIcon
  }

  /** The glyph and colour shown for an entry. */
  function Icon(m: Metadata): Styled {
    KindIcon(KindOf(m))
  }

  /** The source's sequence of overwriting assignments: start from "?" and let every
      matching test replace the icon, so the last matching test decides. */
  method FileTypeIcon(m: Metadata) returns (icon: Styled)
    ensures icon == Icon(m)
    ensures IsIcon(icon)
    ensures !m.isDir && !m.isFile && !m.isSymlink ==> icon == UnknownIcon
    ensures m.isSymlink ==> icon == SymlinkIcon
    ensures m.isFile && !m.isSymlink ==> icon == FileIcon
    ensures m.isDir && !m.isFile && !m.isSymlink ==> icon == DirIcon
  {
    icon := UnknownIcon;
    if m.isDir {
      icon := DirIcon;
    }
    if m.isFile {
      icon := FileIcon;
    }
    if m.isSymlink {
      icon := SymlinkIcon;
    }
  }

  /** No flag set: "?" in bright white. */
  lemma IconUnknown(m: Metadata)
    requires !m.isDir && !m.isFile && !m.isSymlink
    ensures Icon(m) == Styled("?", BrightWhite)
  {
  }

  /** A link is shown as a link whatever the other two flags say. */
  lemma IconSymlinkWins(m: Metadata)
    requires m.isSymlink
    ensures Icon(m) == Styled("\U{EA9C}", Yellow)
  {
  }

  /** A file that is not a link is shown as a file, even when it also claims to be a directory. */
  lemma IconFileBeatsDirectory(m: Metadata)
    requires m.isFile && !m.isSymlink
    ensures Icon(m) == Styled("\U{EA7B}", Blue)
  {
  }

  /** A directory that is neither a file nor a link is shown as a directory. */
  lemma IconDirectory(m: Metadata)
    requires m.isDir && !m.isFile && !m.isSymlink
    ensures Icon(m) == Styled("\U{F413}", Green)
  {
  }

  /** The classifier is total and gives one of exactly four pairs, and each pair
      stands for one category only. */
  lemma IconRange(m: Metadata)
    ensures IsIcon(Icon(m))
    ensures forall k: Kind :: KindIcon(k) == Icon(m) ==> k == KindOf(m)
  {
  }

  /** When at most one flag holds, as the platform reports for a link's own
      metadata, the order of the tests does not matter: the icon is that of the
      one flag that holds. */
  lemma IconOfExclusiveFlags(m: Metadata)
    requires !(m.isDir && m.isFile) && !(m.isDir && m.isSymlink) && !(m.isFile && m.isSymlink)
    ensures m.isDir <==> Icon(m) == DirIcon
    ensures m.isFile <==> Icon(m) == FileIcon
    ensures m.isSymlink <==> Icon(m) == SymlinkIcon
    ensures (!m.isDir && !m.isFile && !m.isSymlink) <==> Icon(m) == UnknownIcon
  {
  }
}
