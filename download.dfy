/**
 * The `/download` handler (app.py:47-64): the size policy fixes the byte count,
 * which is advertised as `Content-Length` and handed to the chunk generator.
 */
module Download {
  import opened Bytes
  import opened Generator
  import opened SizePolicy

  /** The response: its `Content-Type`, its `Content-Length` and the streamed chunks. */
  datatype DownloadResponse = DownloadResponse(contentType: string, contentLength: nat, body: seq<seq<byte>>)

  method ServeDownload(arg: SizeArg) returns (resp: DownloadResponse)
    ensures resp.contentType == "application/octet-stream"
    ensures resp.contentLength == DownloadBytes(arg)
    ensures resp.body == Chunks(resp.contentLength)
    ensures MinDownloadBytes <= resp.contentLength <= MaxDownloadBytes
    ensures Flatten(resp.body) == Zeros(resp.contentLength)
    ensures |Flatten(resp.body)| == resp.contentLength
    ensures forall i :: 0 <= i < |resp.body| ==> 0 < |resp.body[i]| <= ChunkSize
  {
    var totalBytes := DownloadBytes(arg);
    var body := GenerateData(totalBytes);
    resp := DownloadResponse("application/octet-stream", totalBytes, body);
  }
}
