/** Opaque image resources, nullable GUI image objects and timer handles,
    as the two display controllers see them.

    The image resources themselves (`bootlogo1`, `neutral3`, `angry7`, ...)
    are only declarations to the controllers, so each is a token naming its
    family and its number. */
module Assets {

  /** The families of image resources. `DefaultFace` is the `default_face`
      set, which only the GC9107 build draws. */
  datatype Family =
    | NeutralFace | HappyFace | SadFace | AngryFace | LovingFace
    | EmbarrassedFace | DefaultFace | BootLogo

  /** One image resource: `Asset(AngryFace, 7)` stands for `angry7`. */
  datatype Asset = Asset(family: Family, number: nat)

  /** What an image object shows. `OutOfRange(t, i)` records that the code
      passed `images[i]` of table `t` to the GUI with `i` outside the table,
      which in the C++ source reads past the end of a static array. */
  datatype Source = NoImage | Image(asset: Asset) | OutOfRange(table: Family, index: int)

  /** A nullable `lv_obj_t*` image object together with the source most
      recently bound to it by `lv_img_set_src`. */
  datatype ImgObj = NullObj | Obj(src: Source)

  /** An `esp_timer_handle_t`: still null, created and started periodically
      with a period in microseconds, or stopped and deleted (the source does
      not null the handle afterwards). */
  datatype Timer = NullTimer | Periodic(periodUs: nat) | Deleted

  /** The table `f1, f2, ..., fn` of one family. */
  function Numbered(f: Family, n: nat): (t: seq<Asset>)
    ensures |t| == n
    ensures forall i :: 0 <= i < n ==> t[i] == Asset(f, i + 1)
  {
    seq(n, i requires 0 <= i < n => Asset(f, i + 1))
  }

  /** A table of one family listed by resource number, for the tables that
      play forwards and then backwards. */
  function Listed(f: Family, numbers: seq<nat>): (t: seq<Asset>)
    ensures |t| == |numbers|
    ensures forall i :: 0 <= i < |numbers| ==> t[i] == Asset(f, numbers[i])
  {
    seq(|numbers|, i requires 0 <= i < |numbers| => Asset(f, numbers[i]))
  }

  /** `images[index]` handed to `lv_img_set_src`: the entry when the index
      lies inside the table, otherwise the record of the overrun. */
  function Lookup(table: seq<Asset>, f: Family, index: int): (src: Source)
    ensures src.Image? <==> 0 <= index < |table|
    ensures src.Image? ==> src.asset == table[index]
  {
    if 0 <= index < |table| then Image(table[index]) else OutOfRange(f, index)
  }
}
