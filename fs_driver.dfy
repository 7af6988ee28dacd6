/**
 * The LVGL filesystem-driver callbacks over POSIX (`fs_open_cb`,
 * `fs_read_cb`, `fs_seek_cb`, `fs_tell_cb`): the mapping of LVGL's open
 * modes and seek origins to POSIX ones, and how each callback turns the
 * result of its POSIX call into LVGL's result code. The POSIX calls
 * themselves are not modelled; their results are inputs.
 */
module FsDriver {
  import opened Wrappers
  import opened Machine

  /** `lv_fs_mode_t`: `LV_FS_MODE_WR` and `LV_FS_MODE_RD` (LVGL's values). */
  const MODE_WR: bv8 := 0x01
  const MODE_RD: bv8 := 0x02

  /** `lv_fs_whence_t`: `LV_FS_SEEK_SET`, `LV_FS_SEEK_CUR`, `LV_FS_SEEK_END` (LVGL's values). */
  const SEEK_SET: bv8 := 0x00
  const SEEK_CUR: bv8 := 0x01
  const SEEK_END: bv8 := 0x02

  /** `lv_fs_res_t` as these callbacks return it. */
  datatype FsRes = FsOk | FsUnknown

  /** The POSIX access mode and the `O_CREAT`/`O_TRUNC` bits of an `open` flags word. */
  datatype Access = ReadOnly | WriteOnly | ReadWrite
  datatype OpenFlags = OpenFlags(access: Access, create: bool, truncate: bool)

  /** `flags = 0`: `O_RDONLY` with no other bit. */
  const NO_FLAGS := OpenFlags(ReadOnly, false, false)

  /**
   * The third test of `fs_open_cb` as C parses it: `==` binds tighter than
   * `|`, so it is `(mode == LV_FS_MODE_WR) | LV_FS_MODE_RD`, an `int` that is
   * 2 or 3 and therefore always true.
   */
  predicate ThirdTest(mode: bv8)
  {
    ((if mode == MODE_WR then 1 else 0) as bv32 | MODE_RD as bv32) != 0
  }

  /** The `open` flags `fs_open_cb` chooses for an LVGL mode. */
  function OpenFlagsFor(mode: bv8): (f: OpenFlags)
    ensures f.access == WriteOnly <==> mode == MODE_WR
    ensures f.access == ReadOnly <==> mode == MODE_RD
    ensures f.truncate <==> mode == MODE_WR
    ensures f.create <==> mode != MODE_RD
    ensures mode != MODE_WR && mode != MODE_RD ==> f == OpenFlags(ReadWrite, true, false)
  {
    if mode == MODE_WR then OpenFlags(WriteOnly, true, true)
    else if mode == MODE_RD then OpenFlags(ReadOnly, false, false)
    else if ThirdTest(mode) then OpenFlags(ReadWrite, true, false)
    else NO_FLAGS
  }

  /** The same chain read as its author evidently meant it, with `mode == (WR | RD)`. */
  function ParenthesisedOpenFlags(mode: bv8): OpenFlags
  {
    if mode == MODE_WR then OpenFlags(WriteOnly, true, true)
    else if mode == MODE_RD then OpenFlags(ReadOnly, false, false)
    else if mode == MODE_WR | MODE_RD then OpenFlags(ReadWrite, true, false)
    else NO_FLAGS
  }

  /**
   * On the three modes LVGL opens files with, the precedence slip changes
   * nothing; on every other mode the chain as written falls to
   * `O_RDWR | O_CREAT` where the parenthesised one would leave `flags = 0`.
   */
  lemma OpenFlagsPrecedence(mode: bv8)
    ensures mode in {MODE_WR, MODE_RD, MODE_WR | MODE_RD} ==> OpenFlagsFor(mode) == ParenthesisedOpenFlags(mode)
    ensures !(mode in {MODE_WR, MODE_RD, MODE_WR | MODE_RD}) ==>
              OpenFlagsFor(mode) != ParenthesisedOpenFlags(mode) && ParenthesisedOpenFlags(mode) == NO_FLAGS
  {
  }

  /**
   * The handle `fs_open_cb` returns, given whether `lv_mem_alloc` succeeded
   * and what `open` returned: None (NULL) when either failed.
   */
  function OpenHandle(allocOk: bool, fd: int): (h: Option<int>)
    ensures h.Some? <==> allocOk && fd >= 0
    ensures h.Some? ==> h.value == fd
  {
    if !allocOk then None
    else if fd < 0 then None
    else Some(fd)
  }

  /** The POSIX seek origin. */
  datatype Whence = PosixSeekSet | PosixSeekCur | PosixSeekEnd

  /** The mapping in `fs_seek_cb`; None for an origin it rejects. */
  function PosixWhence(whence: bv8): Option<Whence>
  {
    if whence == SEEK_SET then Some(PosixSeekSet)
    else if whence == SEEK_CUR then Some(PosixSeekCur)
    else if whence == SEEK_END then Some(PosixSeekEnd)
    else None
  }

  /** The LVGL origin each POSIX origin comes from. */
  function LvglWhence(w: Whence): bv8
  {
    match w
    case PosixSeekSet => SEEK_SET
    case PosixSeekCur => SEEK_CUR
    case PosixSeekEnd => SEEK_END
  }

  /** The whence mapping is a bijection between LVGL's three origins and POSIX's. */
  lemma WhenceRoundTrip(whence: bv8, w: Whence)
    ensures PosixWhence(LvglWhence(w)) == Some(w)
    ensures PosixWhence(whence) == Some(w) ==> LvglWhence(w) == whence
    ensures PosixWhence(whence).None? <==> whence > SEEK_END
  {
  }

  /**
   * The result of `fs_seek_cb`, given what `lseek` returned (it is only
   * called once the origin has been mapped).
   */
  function SeekResult(whence: bv8, lseekResult: int): (r: FsRes)
    ensures r == FsOk <==> whence <= SEEK_END && lseekResult >= 0
  {
    match PosixWhence(whence)
    case None => FsUnknown
    case Some(_) => if lseekResult < 0 then FsUnknown else FsOk
  }

  /** `fs_read_cb`: the result code and the byte count stored in `*br` (None: `*br` untouched). */
  function ReadResult(readResult: int): (r: (FsRes, Option<uint32>))
    ensures r.0 == FsOk <==> readResult >= 0
    ensures r.1.Some? <==> readResult >= 0
    ensures r.1.Some? ==> r.1.value == Wrap32(readResult)
  {
    if readResult < 0 then (FsUnknown, None) else (FsOk, Some(Wrap32(readResult)))
  }

  /**
   * `fs_tell_cb` as written: the `off_t` from `lseek` is stored into the
   * `uint32_t` behind `pos_p` first, and only then tested `< 0`, which an
   * unsigned value never is.
   */
  function TellAsWritten(lseekResult: int): (FsRes, uint32)
  {
    var pos := Wrap32(lseekResult);
    if pos < 0 then (FsUnknown, pos) else (FsOk, pos)
  }

  /** A failing `lseek` (-1) is reported as success at position 0xFFFFFFFF. */
  lemma TellAsWrittenHidesFailure()
    ensures TellAsWritten(-1) == (FsOk, 0xFFFF_FFFF)
  {
  }

  /** `fs_tell_cb` with the failure test made on the signed result. */
  function Tell(lseekResult: int): (r: (FsRes, uint32))
    ensures r.0 == FsOk <==> lseekResult >= 0
    ensures r.1 == Wrap32(lseekResult)
  {
    var pos := Wrap32(lseekResult);
    if lseekResult < 0 then (FsUnknown, pos) else (FsOk, pos)
  }

  /** The correction only changes the reply to a failed `lseek`. */
  lemma TellCorrectionOnlyOnFailure(lseekResult: int)
    ensures lseekResult >= 0 ==> Tell(lseekResult) == TellAsWritten(lseekResult)
    ensures lseekResult < 0 ==> Tell(lseekResult).0 != TellAsWritten(lseekResult).0
  {
  }
}
