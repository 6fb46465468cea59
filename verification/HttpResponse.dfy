/** The response object, as the server updates it in place. */
module HttpResponse {
  import opened Storage
  import opened ResponseModel

  class HttpResponse {
    var sendingState: SendingState
    const kind: ResponseType
    const storage: Storage
    var sentSize: nat
    const statusCode: int
    const goalSize: nat
    const contentLength: nat
    var downloadedSize: nat
    var fileFd: int

    ghost function View(): Response
      reads this, storage
      requires storage.Valid()
    {
      Response(sendingState, kind, storage.Held(), storage.readPos, sentSize, goalSize,
               contentLength, downloadedSize, statusCode, fileFd)
    }

    ghost predicate Valid()
      reads this, storage
    {
      storage.Valid() && View().Valid()
    }

    constructor (kind: ResponseType, state: SendingState, header: string, statusCode: int,
                 contentLength: nat, fileFd: int)
      ensures Valid() && fresh(storage)
      ensures View() == NewResponse(kind, state, header, "", statusCode, contentLength, fileFd)
    {
      sendingState, this.kind := state, kind;
      storage := new Storage.From(header);
      sentSize, this.statusCode := 0, statusCode;
      goalSize, this.contentLength := contentLength + |header|, contentLength;
      downloadedSize, this.fileFd := 0, fileFd;
      new;
      assert header + "" == header;
    }

    /** The second constructor copies what is unread in another store. */
    constructor WithStorage(kind: ResponseType, state: SendingState, extra: Storage, header: string,
                            statusCode: int, contentLength: nat, fileFd: int)
      requires extra.Valid()
      ensures Valid() && fresh(storage)
      ensures View() == NewResponse(kind, state, header, extra.Unread(), statusCode, contentLength, fileFd)
    {
      sendingState, this.kind := state, kind;
      storage := new Storage.From(header);
      sentSize, this.statusCode := 0, statusCode;
      goalSize, this.contentLength := contentLength + |header|, contentLength;
      downloadedSize, this.fileFd := 0, fileFd;
      new;
      storage.Insert(extra.cells[extra.readPos..extra.writePos]);
      assert extra.cells[extra.readPos..extra.writePos] == extra.Unread();
    }

    /** One readiness of the socket; `out` is what its `send` accepted. */
    method SendResponse(io: Io) returns (out: string)
      requires Valid()
      modifies this`sendingState, this`sentSize, storage`readPos, storage`state
      ensures Valid() && Sent(View(), out) == Send(old(View()), io)
    {
      out := "";
      if sendingState == SendingStorage {
        ghost var u := storage.Unread();
        var moved;
        moved, out := storage.MemToSock(goalSize - sentSize, io);
        if moved == -1 {
          sendingState := SendingClosed;
          return;
        }
        assert out == u[..|out|];
        sentSize := sentSize + moved;
        if goalSize == sentSize {
          sendingState := SendingDone;
        }
      }
    }

    /** One readiness of the source file, read up to a buffer at a time. */
    method DownloadResponse(file: File, io: Io)
      requires Valid() && file.Valid()
      modifies this`sendingState, this`downloadedSize
      modifies storage`cells, storage`writePos, storage`state, file`offset
      ensures Valid() && file.Valid()
      ensures var read := ReadOf(old(file.Ahead()), io);
              && View() == Download(old(View()), read)
              && (old(sendingState) == DownloadingInit && read.Bytes? ==> read.piece + file.Ahead() == old(file.Ahead()))
    {
      if sendingState == DownloadingInit {
        ghost var held, ahead := storage.Held(), file.Ahead();
        var moved := storage.FileToMem(file, io);
        if moved == -1 {
          sendingState := SendingClosed;
          return;
        }
        PieceRead(held, storage.Held(), ahead, file.Ahead(), moved);
        downloadedSize := downloadedSize + moved;
        if contentLength == downloadedSize {
          sendingState := SendingStorage;
        } else {
          sendingState := DownloadingInit;
        }
      }
    }
  }

  lemma {:induction false} PieceRead(held: string, held': string, ahead: string, ahead': string, n: nat)
    requires held <= held' && held' + ahead' == held + ahead && |held'| == |held| + n && n <= |ahead|
    ensures held' == held + ahead[..n] && ahead[..n] + ahead' == ahead
  {
    assert held' == (held' + ahead')[..|held'|] == (held + ahead)[..|held| + n] == held + ahead[..n];
    assert ahead' == (held' + ahead')[|held'|..] == (held + ahead)[|held| + n..] == ahead[n..];
  }
}
