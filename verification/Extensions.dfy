/** The extensions of written files, from the format and the compression. */
module Extensions {
  import opened RunNames
  import opened Text
  import opened Wrappers

  datatype FileFormat = CSV | JSONLine | JSON | Excel | XML | ORC | Parquet

  datatype Compression = NoCompression | Gzip | Snappy | Zlib | Lz4 | Bzip2 | Deflate

  function FormatSuffix(format: FileFormat): string {
    match format
    case CSV => "csv"
    case JSONLine => "jsonl"
    case JSON => "json"
    case Excel => "xlsx"
    case XML => "xml"
    case ORC => "orc"
    case Parquet => "parquet"
  }

  function CompressionSuffix(compression: Compression): string
    requires compression != NoCompression
  {
    match compression
    case Gzip => "gz"
    case Snappy => "snappy"
    case Zlib => "zlib"
    case Lz4 => "lz4"
    case Bzip2 => "bz2"
    case Deflate => "deflate"
  }

  /** Column formats compress inside the file, so there the compression comes first. */
  function FileExtension(format: FileFormat, compression: Compression): string {
    if compression == NoCompression then FormatSuffix(format)
    else if format == Parquet && compression == Lz4 then "lz4hadoop.parquet"
    else if format == Parquet || format == ORC then CompressionSuffix(compression) + "." + FormatSuffix(format)
    else FormatSuffix(format) + "." + CompressionSuffix(compression)
  }

  /** Every extension starts with a letter, which keeps it apart from a numeral in front of it. */
  lemma ExtensionsStartWithoutDigit(format: FileFormat, compression: Compression)
    ensures StartsWithoutDigit(FileExtension(format, compression))
  {
    var s := FileExtension(format, compression);
    var first := if (format == Parquet || format == ORC) && compression != NoCompression &&
      !(format == Parquet && compression == Lz4)
                 then CompressionSuffix(compression) else FormatSuffix(format);
    assert s == "lz4hadoop.parquet" || s[0] == first[0];
  }

  function FormatFor(s: string): Option<FileFormat> {
    if s == FormatSuffix(CSV) then Some(CSV)
    else if s == FormatSuffix(JSONLine) then Some(JSONLine)
    else if s == FormatSuffix(JSON) then Some(JSON)
    else if s == FormatSuffix(Excel) then Some(Excel)
    else if s == FormatSuffix(XML) then Some(XML)
    else if s == FormatSuffix(ORC) then Some(ORC)
    else if s == FormatSuffix(Parquet) then Some(Parquet)
    else None
  }

  function CompressionFor(s: string): Option<Compression> {
    if s == CompressionSuffix(Gzip) then Some(Gzip)
    else if s == CompressionSuffix(Snappy) then Some(Snappy)
    else if s == CompressionSuffix(Zlib) then Some(Zlib)
    else if s == CompressionSuffix(Lz4) || s == "lz4hadoop" then Some(Lz4)
    else if s == CompressionSuffix(Bzip2) then Some(Bzip2)
    else if s == CompressionSuffix(Deflate) then Some(Deflate)
    else None
  }

  function UpToDot(s: string): (n: nat)
    ensures n <= |s| && (forall i | 0 <= i < n :: s[i] != '.') && (n < |s| ==> s[n] == '.')
  {
    if s == "" || s[0] == '.' then 0 else 1 + UpToDot(s[1..])
  }

  function Paired(format: Option<FileFormat>, compression: Option<Compression>): Option<(FileFormat, Compression)> {
    if format.Some? && compression.Some? then Some((format.value, compression.value)) else None
  }

  /** Format and compression in either order, or a format alone. */
  function ReadExtension(s: string): Option<(FileFormat, Compression)> {
    var n := UpToDot(s);
    if n == |s| then Paired(FormatFor(s), Some(NoCompression))
    else if FormatFor(s[..n]).Some? then Paired(FormatFor(s[..n]), CompressionFor(s[n + 1..]))
    else Paired(FormatFor(s[n + 1..]), CompressionFor(s[..n]))
  }

  lemma FormatsAreKnown(format: FileFormat)
    ensures FormatFor(FormatSuffix(format)) == Some(format) && '.' !in FormatSuffix(format)
  {
    assert FormatSuffix(CSV)[0] == 'c' && FormatSuffix(XML)[0] == 'x' && FormatSuffix(ORC)[0] == 'o';
    assert FormatSuffix(Excel)[1] == 'l' && FormatSuffix(XML)[1] == 'm';
  }

  lemma CompressionsAreKnown(compression: Compression)
    requires compression != NoCompression
    ensures var s := CompressionSuffix(compression);
            CompressionFor(s) == Some(compression) && FormatFor(s).None? && '.' !in s
  {
    var s := CompressionSuffix(compression);
    assert CompressionSuffix(Gzip)[0] == 'g' && CompressionSuffix(Zlib)[0] == 'z' && CompressionSuffix(Lz4)[0] == 'l';
    assert CompressionSuffix(Bzip2)[0] == 'b' && CompressionSuffix(Deflate)[0] == 'd' &&
           CompressionSuffix(Snappy)[0] == 's';
    assert s[0] != 'c' && s[0] != 'j' && s[0] != 'x' && s[0] != 'o' && s[0] != 'p';
  }

  lemma {:induction false} DotIsFound(front: string, back: string)
    requires '.' !in front
    ensures UpToDot(front + "." + back) == |front| && UpToDot(front) == |front|
    ensures (front + "." + back)[..|front|] == front && (front + "." + back)[|front| + 1..] == back
  {
    if front != "" {
      assert (front + "." + back)[1..] == front[1..] + "." + back;
      DotIsFound(front[1..], back);
    }
  }

  lemma JoinedIsRead(front: string, back: string)
    requires '.' !in front
    ensures ReadExtension(front + "." + back) ==
              if FormatFor(front).Some? then Paired(FormatFor(front), CompressionFor(back))
              else Paired(FormatFor(back), CompressionFor(front))
  {
    DotIsFound(front, back);
  }

  lemma AloneIsRead(s: string)
    requires '.' !in s
    ensures ReadExtension(s) == Paired(FormatFor(s), Some(NoCompression))
  {
    DotIsFound(s, "");
  }

  lemma HadoopIsLz4()
    ensures CompressionFor("lz4hadoop") == Some(Lz4) && '.' !in "lz4hadoop"
  {
    var s := "lz4hadoop";
    assert s[0] == 'l';
    assert CompressionSuffix(Gzip)[0] == 'g' && CompressionSuffix(Snappy)[0] == 's' &&
           CompressionSuffix(Zlib)[0] == 'z';
  }

  lemma HadoopIsNoFormat()
    ensures FormatFor("lz4hadoop").None?
  {
    assert |"lz4hadoop"| == 9;
    assert forall format: FileFormat :: |FormatSuffix(format)| < 9;
  }

  lemma HadoopIsRead()
    ensures ReadExtension("lz4hadoop.parquet") == Some((Parquet, Lz4))
  {
    var front, back := "lz4hadoop", FormatSuffix(Parquet);
    HadoopIsLz4();
    HadoopIsNoFormat();
    FormatsAreKnown(Parquet);
    JoinedIsRead(front, back);
    assert "lz4hadoop.parquet" == "lz4hadoop" + "." + "parquet";
  }

  lemma CompressedReadsBack(format: FileFormat, compression: Compression)
    requires compression != NoCompression && !(format == Parquet && compression == Lz4)
    ensures ReadExtension(FileExtension(format, compression)) == Some((format, compression))
  {
    var name, packed := FormatSuffix(format), CompressionSuffix(compression);
    FormatsAreKnown(format);
    CompressionsAreKnown(compression);
    JoinedIsRead(name, packed);
    JoinedIsRead(packed, name);
  }

  /** An extension tells the format and the compression it was made for. */
  lemma ExtensionReadsBack(format: FileFormat, compression: Compression)
    ensures ReadExtension(FileExtension(format, compression)) == Some((format, compression))
  {
    if compression == NoCompression {
      FormatsAreKnown(format);
      AloneIsRead(FormatSuffix(format));
    } else if format == Parquet && compression == Lz4 {
      HadoopIsRead();
    } else {
      CompressedReadsBack(format, compression);
    }
  }
}
