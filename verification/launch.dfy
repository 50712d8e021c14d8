/** Process start-up: the scan of the command-line flags `-e`, `-c`, `-b`, and
    the video configuration built from them (codec, channel, the recording
    file name and the layout of the decoded picture). */
module Launch {

  /** Size of the buffer that holds the recording file name. */
  const FILENAMESIZE: nat := 256
  /** Bound passed to the copy of that name into the pre-stage configuration. */
  const OUTPUT_NAME_BOUND: nat := 255

  const NUL: char := '\0'

  datatype Codec = P264Codec | UvlcCodec | H264_360pCodec | H264_720pCodec

  datatype VideoChannel = HorizontalChannel | VerticalChannel

  // ---------------------------------------------------------------------
  // C strings
  //
  // Each `char` stands for one C byte: an argv entry and the 256-byte name
  // buffer are sequences of bytes, and `strncpy` counts bytes, not Unicode
  // characters.

  /** Length of the C string stored in `s`: up to its first NUL, or all of
      `s` when the terminator lies just past its end (as in an argv entry). */
  function CStrLen(s: seq<char>): (n: nat)
    ensures n <= |s|
    ensures forall i :: 0 <= i < n ==> s[i] != NUL
    ensures n < |s| ==> s[n] == NUL
  {
    if s == [] || s[0] == NUL then 0 else 1 + CStrLen(s[1..])
  }

  /** The characters a C reader sees in `s`. */
  function CString(s: seq<char>): seq<char>
  {
    s[..CStrLen(s)]
  }

  /** `strncpy(dst, src, n)`: the `n` bytes written to `dst`. */
  function Strncpy(src: seq<char>, n: nat): (r: seq<char>)
    ensures |r| == n
    ensures forall i :: 0 <= i < n && i < CStrLen(src) ==> r[i] == src[i]
    ensures forall i :: CStrLen(src) <= i < n ==> r[i] == NUL
  {
    var len := CStrLen(src);
    seq(n, i requires 0 <= i < n => if i < len then src[i] else NUL)
  }

  /** What a C reader sees after `strncpy(dst, src, n)` is the source string cut
      to `n` characters, and a terminator was written iff the source was
      shorter than `n`. */
  lemma StrncpyCString(src: seq<char>, n: nat)
    ensures CStrLen(Strncpy(src, n)) == if CStrLen(src) < n then CStrLen(src) else n
    ensures CString(Strncpy(src, n)) == CString(src)[..CStrLen(Strncpy(src, n))]
    ensures (NUL in Strncpy(src, n)) <==> CStrLen(src) < n
  {
    var r := Strncpy(src, n);
    var len := CStrLen(src);
    var m := if len < n then len else n;
    CStrLenAt(r, m);
    if NUL in r {
      var k :| 0 <= k < n && r[k] == NUL;
      assert k >= len;
    }
  }

  /** A sequence whose first NUL sits at `m` (or that has none before its end
      `m`) has C length `m`. */
  lemma {:induction false} CStrLenAt(s: seq<char>, m: nat)
    requires m <= |s|
    requires forall i :: 0 <= i < m ==> s[i] != NUL
    requires m < |s| ==> s[m] == NUL
    ensures CStrLen(s) == m
  {
    if m > 0 {
      CStrLenAt(s[1..], m - 1);
    }
  }

  // ---------------------------------------------------------------------
  // The flag scan of `main`

  /** `arg` starts with `-` followed by `flag`. */
  predicate HasFlag(arg: seq<char>, flag: char)
  {
    |arg| >= 2 && arg[0] == '-' && arg[1] == flag
  }

  /** The entries the scan visits: all but the program name. */
  function ScannedArgs(argv: seq<seq<char>>): (args: seq<seq<char>>)
    ensures |argv| >= 1 ==> args == argv[1..]
    ensures |argv| == 0 ==> args == []
  {
    if |argv| <= 1 then [] else argv[1..]
  }

  /** Some entry of `args` carries `flag`. */
  predicate AnyFlag(args: seq<seq<char>>, flag: char)
  {
    exists i :: 0 <= i < |args| && HasFlag(args[i], flag)
  }

  /** The recording name after scanning `args`, starting from `name`: each
      `-e` entry overwrites it with the bytes `strncpy` copies from the text
      after the two-character prefix. */
  function FileNameAfter(name: seq<char>, args: seq<seq<char>>): (r: seq<char>)
    requires |name| == FILENAMESIZE
    ensures |r| == FILENAMESIZE
  {
    if args == [] then name
    else
      var last := args[|args| - 1];
      if HasFlag(last, 'e') then Strncpy(last[2..], FILENAMESIZE)
      else FileNameAfter(name, args[..|args| - 1])
  }

  /** The last `-e` entry decides the name, whatever comes before it. */
  lemma {:induction false} LastFileFlagWins(name: seq<char>, before: seq<seq<char>>, arg: seq<char>, after: seq<seq<char>>)
    requires |name| == FILENAMESIZE
    requires HasFlag(arg, 'e') && !AnyFlag(after, 'e')
    ensures FileNameAfter(name, before + [arg] + after) == Strncpy(arg[2..], FILENAMESIZE)
  {
    var args := before + [arg] + after;
    if after == [] {
      assert args[|args| - 1] == arg;
    } else {
      var init := after[..|after| - 1];
      assert args[|args| - 1] == after[|after| - 1];
      assert !HasFlag(after[|after| - 1], 'e');
      assert args[..|args| - 1] == before + [arg] + init;
      assert !AnyFlag(init, 'e') by {
        forall i | 0 <= i < |init| ensures !HasFlag(init[i], 'e') {
          assert init[i] == after[i];
        }
      }
      LastFileFlagWins(name, before, arg, init);
    }
  }

  /** Without any `-e` entry the name is left as it was. */
  lemma {:induction false} NoFileFlagKeepsName(name: seq<char>, args: seq<seq<char>>)
    requires |name| == FILENAMESIZE
    requires !AnyFlag(args, 'e')
    ensures FileNameAfter(name, args) == name
  {
    if args != [] {
      var init := args[..|args| - 1];
      assert !HasFlag(args[|args| - 1], 'e');
      assert !AnyFlag(init, 'e') by {
        forall i | 0 <= i < |init| ensures !HasFlag(init[i], 'e') {
          assert init[i] == args[i];
        }
      }
      NoFileFlagKeepsName(name, init);
    }
  }

  /** Whether `-c` or `-b` was given depends only on which entries occur, not on
      their order or how often they repeat. */
  lemma FlagPresenceIgnoresOrder(xs: seq<seq<char>>, ys: seq<seq<char>>, flag: char)
    requires forall a :: a in xs <==> a in ys
    ensures AnyFlag(xs, flag) <==> AnyFlag(ys, flag)
  {
    if AnyFlag(xs, flag) {
      var i :| 0 <= i < |xs| && HasFlag(xs[i], flag);
      assert xs[i] in ys;
    }
    if AnyFlag(ys, flag) {
      var j :| 0 <= j < |ys| && HasFlag(ys[j], flag);
      assert ys[j] in xs;
    }
  }

  /** The configuration globals that `main` fills in before the tool starts. */
  class LaunchConfig {
    var encodedFileName: array<char>
    var drone1Codec: Codec
    var drone2Codec: Codec
    var videoChannel: VideoChannel

    ghost predicate Valid()
      reads this
    {
      encodedFileName.Length == FILENAMESIZE
    }

    /** Defaults: empty name, P264 / 360p codecs, front camera. */
    constructor ()
      ensures Valid() && fresh(encodedFileName)
      ensures encodedFileName[..] == seq(FILENAMESIZE, _ => NUL)
      ensures CString(encodedFileName[..]) == []
      ensures drone1Codec == P264Codec && drone2Codec == H264_360pCodec
      ensures videoChannel == HorizontalChannel
    {
      encodedFileName := new char[FILENAMESIZE](_ => NUL);
      drone1Codec, drone2Codec := P264Codec, H264_360pCodec;
      videoChannel := HorizontalChannel;
      new;
      assert encodedFileName[..][0] == NUL;
    }

    /** The scan of `argv[1..argc-1]` in `main`. */
    method ParseArguments(argv: seq<seq<char>>)
      requires Valid()
      modifies this, encodedFileName
      ensures Valid() && encodedFileName == old(encodedFileName)
      ensures encodedFileName[..] == FileNameAfter(old(encodedFileName[..]), ScannedArgs(argv))
      ensures drone1Codec == if AnyFlag(ScannedArgs(argv), 'c') then UvlcCodec else old(drone1Codec)
      ensures drone2Codec == if AnyFlag(ScannedArgs(argv), 'c') then H264_720pCodec else old(drone2Codec)
      ensures videoChannel == if AnyFlag(ScannedArgs(argv), 'b') then VerticalChannel else old(videoChannel)
    {
      var args := ScannedArgs(argv);
      var index := 0;
      while index < |args|
        invariant 0 <= index <= |args|
        invariant encodedFileName == old(encodedFileName) && Valid()
        invariant encodedFileName[..] == FileNameAfter(old(encodedFileName[..]), args[..index])
        invariant drone1Codec == if AnyFlag(args[..index], 'c') then UvlcCodec else old(drone1Codec)
        invariant drone2Codec == if AnyFlag(args[..index], 'c') then H264_720pCodec else old(drone2Codec)
        invariant videoChannel == if AnyFlag(args[..index], 'b') then VerticalChannel else old(videoChannel)
      {
        // args[index] is argv[index + 1]
        var arg := args[index];
        ghost var done := args[..index];
        assert args[..index + 1] == done + [arg];
        AnyFlagSnoc(done, arg, 'c');
        AnyFlagSnoc(done, arg, 'b');
        if HasFlag(arg, 'e') {
          var name := Strncpy(arg[2..], FILENAMESIZE);
          forall k | 0 <= k < FILENAMESIZE {
            encodedFileName[k] := name[k];
          }
        }
        if HasFlag(arg, 'c') {
          drone1Codec := UvlcCodec;
          drone2Codec := H264_720pCodec;
        }
        if HasFlag(arg, 'b') {
          videoChannel := VerticalChannel;
        }
        assert (done + [arg])[..|done|] == done;
        index := index + 1;
      }
      assert args[..index] == args;
    }
  }

  /** Appending one entry adds exactly that entry's flag. */
  lemma AnyFlagSnoc(args: seq<seq<char>>, arg: seq<char>, flag: char)
    ensures AnyFlag(args + [arg], flag) <==> AnyFlag(args, flag) || HasFlag(arg, flag)
  {
    var all := args + [arg];
    if AnyFlag(args, flag) {
      var i :| 0 <= i < |args| && HasFlag(args[i], flag);
      assert all[i] == args[i];
    }
    if HasFlag(arg, flag) {
      assert all[|args|] == arg;
    }
    if AnyFlag(all, flag) && !HasFlag(arg, flag) {
      var i :| 0 <= i < |all| && HasFlag(all[i], flag);
      assert i < |args| && all[i] == args[i];
    }
  }

  // ---------------------------------------------------------------------
  // ardrone_tool_init_custom

  /** The codec the tool is configured with: the AR.Drone 2 setting on an
      AR.Drone 2, the AR.Drone 1 setting otherwise. */
  function ConfiguredCodec(isArdrone2: bool, drone1Codec: Codec, drone2Codec: Codec): (c: Codec)
    ensures c == drone1Codec || c == drone2Codec
    ensures isArdrone2 ==> c == drone2Codec
    ensures !isArdrone2 ==> c == drone1Codec
  {
    if isArdrone2 then drone2Codec else drone1Codec
  }

  /** With the default codec settings, the codec after the flag scan is the
      alternative one of the drone generation exactly when `-c` was given. */
  lemma AlternativeCodecIffFlag(isArdrone2: bool, args: seq<seq<char>>)
    ensures var c := ConfiguredCodec(isArdrone2,
                        if AnyFlag(args, 'c') then UvlcCodec else P264Codec,
                        if AnyFlag(args, 'c') then H264_720pCodec else H264_360pCodec);
            ((c == UvlcCodec || c == H264_720pCodec) <==> AnyFlag(args, 'c')) &&
            (isArdrone2 <==> (c == H264_360pCodec || c == H264_720pCodec))
  {
  }

  /** The name handed to the encoded-frame recorder:
      `strncpy(precfg.outputName, encodedFileName, 255)`. */
  function OutputName(encodedFileName: seq<char>): (r: seq<char>)
    ensures |r| == OUTPUT_NAME_BOUND
    ensures CStrLen(r) ==
              if CStrLen(encodedFileName) < OUTPUT_NAME_BOUND then CStrLen(encodedFileName) else OUTPUT_NAME_BOUND
    ensures CString(r) == CString(encodedFileName)[..CStrLen(r)]
  {
    StrncpyCString(encodedFileName, OUTPUT_NAME_BOUND);
    Strncpy(encodedFileName, OUTPUT_NAME_BOUND)
  }

  /** After `-e<name>` the recorder sees the first (at most 255) characters of
      `<name>`; the 256-byte buffer holds a terminator only when `<name>` has
      fewer than 256 characters. */
  lemma RecorderSeesNamePrefix(arg: seq<char>)
    requires HasFlag(arg, 'e')
    ensures var stored := Strncpy(arg[2..], FILENAMESIZE);
            var len := CStrLen(arg[2..]);
            (NUL in stored <==> len < FILENAMESIZE) &&
            CString(OutputName(stored)) ==
              CString(arg[2..])[..if len < OUTPUT_NAME_BOUND then len else OUTPUT_NAME_BOUND]
  {
    var name := arg[2..];
    var stored := Strncpy(name, FILENAMESIZE);
    StrncpyCString(name, FILENAMESIZE);
    StrncpyCString(stored, OUTPUT_NAME_BOUND);
  }

  datatype PixelFormat = PixFmtRgb24 | PixFmtRgb565 | OtherPixelFormat(code: int)

  /** Widths of the colour channels of a packed RGB format. */
  function ChannelBits(format: PixelFormat): seq<nat>
  {
    match format
    case PixFmtRgb24 => [8, 8, 8]
    case PixFmtRgb565 => [5, 6, 5]
    case OtherPixelFormat(_) => []
  }

  function Sum(xs: seq<nat>): nat
  {
    if xs == [] then 0 else xs[0] + Sum(xs[1..])
  }

  /** Bits of one pixel of the packed formats. */
  lemma PackedPixelBits()
    ensures Sum(ChannelBits(PixFmtRgb24)) == 24
    ensures Sum(ChannelBits(PixFmtRgb565)) == 16
  {
    assert [8, 8, 8][1..] == [8, 8] && [8, 8][1..] == [8];
    assert [5, 6, 5][1..] == [6, 5] && [6, 5][1..] == [5];
    assert Sum([8]) == 8 && Sum([5]) == 5;
  }

  /** Buffers of the decoded picture: one packed plane, no chroma planes. */
  datatype PictureLayout = PictureLayout(bpp: nat, yBufSize: nat, yLineSize: nat, cbLineSize: nat, crLineSize: nat)

  datatype LayoutResult = Layout(layout: PictureLayout) | WrongVideoFormat

  /** The `switch` on the output format: bytes per pixel and line sizes, or the
      "wrong video format" exit for anything but RGB24 and RGB565. */
  function AllocatePicture(format: PixelFormat, width: nat, height: nat): (r: LayoutResult)
    ensures r.Layout? <==> (format == PixFmtRgb24 || format == PixFmtRgb565)
    ensures r.Layout? ==> r.layout.bpp * 8 == Sum(ChannelBits(format))
    ensures r.Layout? ==> r.layout.yLineSize == width * r.layout.bpp
    ensures r.Layout? ==> r.layout.yBufSize == r.layout.yLineSize * height
    ensures r.Layout? ==> r.layout.cbLineSize == 0 && r.layout.crLineSize == 0
  {
    PackedPixelBits();
    match format
    case PixFmtRgb24 => Layout(PictureLayout(3, width * height * 3, width * 3, 0, 0))
    case PixFmtRgb565 => Layout(PictureLayout(2, width * height * 2, width * 2, 0, 0))
    case OtherPixelFormat(_) => WrongVideoFormat
  }

  /** The decoded picture the tool asks for: 640x360 in RGB24. */
  const PICTURE_WIDTH: nat := 640
  const PICTURE_HEIGHT: nat := 360
  const OUTPUT_FORMAT: PixelFormat := PixFmtRgb24

  /** The configured picture is accepted, with three bytes per pixel, 1920
      bytes per line and a 691200-byte buffer. */
  lemma ConfiguredPictureLayout()
    ensures AllocatePicture(OUTPUT_FORMAT, PICTURE_WIDTH, PICTURE_HEIGHT) ==
            Layout(PictureLayout(3, 691200, 1920, 0, 0))
  {
  }
}
