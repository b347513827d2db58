/** The table of uploaded files (`ArquivoExcel`), reduced to what the sales
    engine uses: each file's original name and its bytes, in insertion
    order. Ids and upload timestamps are not modelled. */
module Storage {
  import opened Tables

  datatype StoredFile = StoredFile(nome: string, conteudo: Bytes)

  class FileStore {
    var files: seq<StoredFile>

    constructor ()
      ensures files == []
    {
      files := [];
    }

    /** `db.session.add` followed by `commit`: the file is appended. */
    method Save(nome: string, conteudo: Bytes)
      modifies this
      ensures files == old(files) + [StoredFile(nome, conteudo)]
    {
      files := files + [StoredFile(nome, conteudo)];
    }
  }
}
