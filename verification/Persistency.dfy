/** The daemon's record on disk: the last TFChain height and the Stellar cursor, saved one field at a time. */
module Persistency {
  import opened Wrappers

  /** Paging tokens are numerals that Horizon compares as numbers; 0 is both "0" and the empty cursor. */
  type Cursor = nat

  datatype Blockheight = Blockheight(lastHeight: nat, stellarCursor: Cursor)

  /** Whether reading and writing the file succeed. */
  datatype Disk = Disk(readable: bool, writable: bool)

  class ChainPersistency {
    var file: Option<Blockheight>

    constructor (file: Option<Blockheight>)
      ensures this.file == file
    {
      this.file := file;
    }

    /** The saved record; a missing file counts as the zero record. */
    function Saved(): Blockheight
      reads this
    {
      match file
      case Some(record) => record
      case None => Blockheight(0, 0)
    }

    method GetHeight(disk: Disk) returns (r: Option<Blockheight>)
      ensures r == if file.None? then Some(Blockheight(0, 0)) else if disk.readable then Some(Saved()) else None
    {
      if file.None? {
        return Some(Blockheight(0, 0));
      }
      return if disk.readable then Some(file.value) else None;
    }

    /** Saving the cursor keeps the height, and a failure keeps the file. */
    method SaveStellarCursor(cursor: Cursor, disk: Disk) returns (ok: bool)
      modifies this
      ensures ok <==> (old(file).None? || disk.readable) && disk.writable
      ensures ok ==> Saved() == old(Saved()).(stellarCursor := cursor)
      ensures !ok ==> file == old(file)
    {
      var record := GetHeight(disk);
      if record.None? || !disk.writable {
        return false;
      }
      file := Some(record.value.(stellarCursor := cursor));
      return true;
    }

    /** Saving the height keeps the cursor. */
    method SaveHeight(height: nat, disk: Disk) returns (ok: bool)
      modifies this
      ensures ok <==> (old(file).None? || disk.readable) && disk.writable
      ensures ok ==> Saved() == old(Saved()).(lastHeight := height)
      ensures !ok ==> file == old(file)
    {
      var record := GetHeight(disk);
      if record.None? || !disk.writable {
        return false;
      }
      file := Some(record.value.(lastHeight := height));
      return true;
    }
  }
}
