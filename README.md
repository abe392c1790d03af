# list — a Dafny model of the directory listing's formatting core

`list` is a small Rust command that prints the entries of the current directory as a
coloured four-column table: a type glyph, the file name, the access date and the size.
This project models the two pieces of logic in `src/main.rs` that are not filesystem
I/O or calls into foreign crates, and proves what they promise:

- the **entry-type classifier** (`get_file_type_icon_from_metadata`), which starts
  from `"?"` in bright white and lets three tests in turn overwrite the icon, so the
  last matching test decides: a link beats a file, and a file beats a directory;
- **`display_paths`**, which prints the header `Reading <root> items[<count>]` and
  then appends one row per entry, in order, to a mutable table before printing it.

Files and modules:

- `style.dfy` — `Style`: foreground colours and styled strings (the `colored` crate's
  `ColoredString`, as a text plus one colour).
- `decimal.dfy` — `Decimal`: the decimal numeral Rust's `{:?}` prints for a `usize`,
  with its reading function and the round trip both ways.
- `classifier.dfy` — `Classifier`: the metadata record, the icon as a function of it
  (`Icon`, by way of the category `KindOf`), and the source's sequence of overwriting
  assignments as the method `FileTypeIcon`.
- `listing.dfy` — `Listing`: entries, rows, the table format, the mutable `Table`
  class, the header and its parser, the row specification `Rows`, and the loop
  `DisplayPaths`.

Standard output is modelled as the value `DisplayPaths` returns: the list of things it
prints, in order — the header line, then the table. The date and size formatters
(`chrono`'s `"%F"` and `human_bytes`) are parameters of type `int -> string` and
`nat -> string`; the model promises only that each cell holds what they return.

Three facts about the code worth stating plainly:

- `is_symlink` is tested last, so a link outranks a file, and a file outranks a
  directory (src/main.rs:52-62).
- There is no terminal-width probe and no truncation: the name cell is the whole file
  name (src/main.rs:41).
- The table's last separator, before the size column, is one space; the other two are
  two spaces (src/main.rs:30).

## Model

| member | source | states |
|---|---|---|
| `Classifier.FileTypeIcon` | src/main.rs:49-65 | the three overwriting assignments compute `Icon(m)`: "?" bright white with no flag, the link glyph in yellow whenever the link flag is set, the file glyph in blue for a file that is not a link even if it is also a directory, the directory glyph in green for a directory that is neither; always one of the four pairs |
| `Classifier.IconUnknown` | src/main.rs:50-64 | with none of the three flags the icon is "?" in bright white |
| `Classifier.IconSymlinkWins` | src/main.rs:60-62 | with the link flag set the icon is U+EA9C in yellow, whatever the other flags are |
| `Classifier.IconFileBeatsDirectory` | src/main.rs:52-58 | a file that is not a link gets U+EA7B in blue, even when the directory flag is also set |
| `Classifier.IconDirectory` | src/main.rs:52-54 | a directory that is neither a file nor a link gets U+F413 in green |
| `Classifier.IconRange` | src/main.rs:49-65 | the classifier is total, its result is one of exactly four pairs, and each pair belongs to one category only |
| `Classifier.IconOfExclusiveFlags` | src/main.rs:49-65 | when at most one flag holds, the order of the tests is immaterial: each pair is shown exactly when its own flag holds |
| `Decimal.Format` | src/main.rs:28 | the count is printed as a canonical numeral: digits only, non-empty, no leading zero; one digit exactly below ten |
| `Decimal.ValueOfFormat` | src/main.rs:28 | the printed numeral of a count reads back as that count |
| `Decimal.FormatOfValue` | src/main.rs:28 | every canonical numeral is the printed numeral of the number it denotes |
| `Decimal.FormatInjective` | src/main.rs:28 | different counts print as different numerals |
| `Listing.HeaderRoundTrip` | src/main.rs:28 | the header `Reading <root> items[<count>]` reads back as exactly that root and count |
| `Listing.ParseHeaderSound` | src/main.rs:28 | any line that reads as a header with some root and count is the header for that root and count |
| `Listing.HeaderInjective` | src/main.rs:28 | for one root, the header determines the number of entries it reports |
| `Listing.RowLayout` | src/main.rs:35-43 | an entry's row has exactly four cells, in the order glyph, name, date, size: the cells hold the classifier's icon, the file name unchanged (untruncated) in white, the formatted access date in bright black and the formatted size in red |
| `Listing.RowsAt` | src/main.rs:32-45 | there is one row per entry, and row i is built from entry i |
| `Listing.RowsAppend` | src/main.rs:32-45 | the rows of two runs of entries listed one after the other are the rows of the first run followed by those of the second |
| `Listing.NamesPreserved` | src/main.rs:32-45 | the name column equals the sequence of file names, in order and untruncated |
| `Listing.Table.constructor` | src/main.rs:30 | a new table has the given format and no rows |
| `Listing.Table.AddRow` | src/main.rs:38-44 | adding a row appends it after the rows already there and changes nothing else |
| `Listing.DisplayPaths` | src/main.rs:27-47 | the output is the header for the root and the entry count, followed by the table in the four-column format whose rows are `Rows(items)`: as many rows as entries, row i built from entry i |

## Left out

- `main` and `list_path` (src/main.rs:8-25): reading the current directory and its entries is filesystem I/O. `list_path` always returns `Some`, so the "Failed to read directory" branch of `main` cannot be taken and is not modelled.
- Every `unwrap()` in `display_paths` (metadata, access time, a file name that is not valid UTF-8): each panics on failure, which is I/O; the model's entries already carry a name and metadata. Names are Dafny strings, so non-UTF-8 names do not arise.
- Date formatting by `chrono` with `"%F"` and size formatting by `human_bytes` on `len() as f64`: foreign code, the second in floating point; both are function parameters that the model does not interpret.
- Column widths, padding and the printing of the table by `tabular`: foreign layout code; only the format's four left-aligned columns and their separators are recorded (`Listing.RowFormat`).
- ANSI escape sequences emitted by `colored`, and the actual writes by `println!`: I/O; a cell is its text and colour.
- `Listing.DisplayPaths`: `items.len()` is a `usize`; the model's count is unbounded, which matters only beyond the number of entries a directory can hold.
