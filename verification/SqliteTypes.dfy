/** The records of SQLite replication: page post-images and committed transactions. */
module SqliteTypes {
  import opened Prelude

  /** One page post-image; page numbers are 1-based. */
  datatype Frame = Frame(pgno: nat, data: Bytes)

  /** One committed transaction: every page it wrote, in order, and the database size in pages afterwards. */
  datatype Delta = Delta(txid: nat, pageSize: nat, dbSize: nat, pages: seq<Frame>)
}
