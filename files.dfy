/**
 * The uploads directory as a set of stored paths. `fs.unlink` removes a
 * path and fails when there is nothing to remove; the controllers catch and
 * ignore that failure.
 */
module Files {
  import opened Common

  /** The 400 of an upload request that carries no file. */
  const NoFileUploaded: string := "Nessun file caricato"

  /** What multer hands over for an upload: the stored name and the client's name. */
  datatype UploadedFile = UploadedFile(filename: string, originalname: string)

  /**
   * `${process.env.UPLOADS_DIR ?? "uploads"}/${file.filename}`: the path an
   * upload is recorded under, relative to the server's working directory.
   */
  function StoredPath(uploadsDir: Option<string>, filename: string): string {
    (if uploadsDir.Some? then uploadsDir.value else "uploads") + "/" + filename
  }

  class Disk {
    var files: set<string>

    constructor (files: set<string>)
      ensures this.files == files
    {
      this.files := files;
    }

    /** `fs.unlink(path)`: afterwards the path is gone; `removed` says whether it was there. */
    method Unlink(path: string) returns (removed: bool)
      modifies this
      ensures files == old(files) - {path}
      ensures removed == (path in old(files))
    {
      removed := path in files;
      files := files - {path};
    }
  }
}
