/** image_struct: a table of slots, each a table of separately allocated rows. */
module ImageStores {
  import opened Words
  import opened Pictures
  import opened Semantics
  import opened Bits

  class ImageStore {
    var image: array<array<array<u16>>>
    var width: u16
    var height: u16
    var count: u16
    var shift: u32

    // the abstract value, and the objects it is stored in
    ghost var pictures: seq<Picture>
    ghost var slots: set<array<array<u16>>>
    ghost var rows: set<array<u16>>
    ghost var owner: map<array<u16>, (int, int)>

    /** Before init_image the pointer is null; here it is a table of length zero. */
    constructor ()
      ensures fresh(image)
    {
      image := new array<array<u16>>[0];
      width, height, count, shift := 0, 0, 0, 0;
      pictures, slots, rows, owner := [], {}, {}, map[];
    }

    ghost predicate Holds(s: int, i: int, row: array<u16>)
      requires 0 <= s < |pictures| && 0 <= i < |pictures[s]|
      reads this`owner, this`width, this`pictures, row
    {
      row in owner && owner[row] == (s, i) && row.Length == width && row[..] == pictures[s][i]
    }

    /** Twenty slots of `height` rows of `width` pixels. Every row has one owner, so no row is used twice. */
    ghost predicate Valid()
      reads this, image, slots, rows
    {
      && image.Length == |pictures| == count == SLOTS
      && shift == width * height
      && owner.Keys == rows
      && (forall s :: 0 <= s < SLOTS ==>
            image[s] in slots && image[s].Length == height && Shaped(pictures[s], width, height))
      && (forall s, i :: 0 <= s < SLOTS && 0 <= i < height ==> image[s][i] in rows && Holds(s, i, image[s][i]))
    }

    lemma CountIs()
      requires Valid()
      ensures count == SLOTS
    {
    }

    /** Row i of slot s, without the rest of the store. */
    ghost predicate RowIs(s: nat, i: nat, row: seq<u16>)
      reads this`image, image, slots, this`slots, rows, this`rows
    {
      && s < image.Length
      && image[s] in slots && i < image[s].Length
      && image[s][i] in rows && image[s][i][..] == row
    }

    /** `image.image[s][i][j] = v`: the pixel changes and no other does. */
    method Put(s: nat, i: nat, j: nat, v: u16)
      requires Valid() && s < SLOTS && i < height && j < width
      modifies this`pictures, rows
      ensures Valid()
      ensures pictures == WithPixel(old(pictures), s, i, j, v)
    {
      var row := image[s][i];
      row[j] := v;
      pictures := WithPixel(pictures, s, i, j, v);
    }

    /** `image.image[s][i][j] |= v` for a byte, when the pixel's low byte is clear: the bits do not overlap, so this
        adds. */
    method Or(s: nat, i: nat, j: nat, v: u8)
      requires Valid() && s < SLOTS && i < height && j < width && pictures[s][i][j] % 0x100 == 0
      modifies this`pictures, rows
      ensures Valid()
      ensures pictures == WithPixel(old(pictures), s, i, j, old(pictures[s][i][j]) + v)
    {
      var pixel := image[s][i][j];
      assert pixel == pictures[s][i][j];
      OrByte(pixel, v);
      Put(s, i, j, BitOr(pixel, v));
    }
  }
}
