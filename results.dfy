/**
 * The response envelope `CommonResult<T>`: five nullable fields (respCode, data, rows,
 * msg, total). `Envelope` is its value (what a response body carries); the class
 * `CommonResult` is the mutable object its constructors build and its setters update.
 */
module Results {
  import opened Nullable
  import opened RespCodes

  datatype Envelope<T> = Envelope(
    respCode: Option<int>,
    data: Option<T>,
    rows: Option<seq<T>>,
    msg: Option<string>,
    total: Option<int>)

  // The five constructors of the source, each with the fields it leaves null.

  /** `CommonResult()`: every field null. */
  function Blank<T>(): Envelope<T>
  {
    Envelope(None, None, None, None, None)
  }

  /** `CommonResult(respCode)`. */
  function Coded<T>(respCode: Option<int>): Envelope<T>
  {
    Blank<T>().(respCode := respCode)
  }

  /** `CommonResult(respCode, data)`: chains to `CommonResult(respCode)`. */
  function WithData<T>(respCode: Option<int>, data: Option<T>): Envelope<T>
  {
    Coded<T>(respCode).(data := data)
  }

  /** `CommonResult(respCode, data, msg)`: chains to `CommonResult(respCode, data)`. */
  function WithDataAndMsg<T>(respCode: Option<int>, data: Option<T>, msg: Option<string>): Envelope<T>
  {
    WithData(respCode, data).(msg := msg)
  }

  /** `CommonResult(respCode, rows, total)`: chains to `CommonResult(respCode)`. */
  function WithRows<T>(respCode: Option<int>, rows: Option<seq<T>>, total: Option<int>): Envelope<T>
  {
    Coded<T>(respCode).(rows := rows, total := total)
  }

  /** No constructor fills both the single payload and the rows. */
  lemma ConstructorsNeverFillDataAndRows<T>(c: Option<int>, d: Option<T>, m: Option<string>, rs: Option<seq<T>>, t: Option<int>)
    ensures Blank<T>().data.None? && Blank<T>().rows.None?
    ensures Coded<T>(c).data.None? && Coded<T>(c).rows.None?
    ensures WithData(c, d).rows.None? && WithDataAndMsg(c, d, m).rows.None?
    ensures WithRows(c, rs, t).data.None?
  {
  }

  // The static factories. The codes are those the constants are declared with.

  /** `success()`: code 100, everything else null. */
  function Success<T>(): (r: Envelope<T>)
    ensures r.respCode == Some(100)
    ensures r.data.None? && r.rows.None? && r.msg.None? && r.total.None?
  {
    Coded(Some(DeclaredCode(RespCodeEnum.Success)))
  }

  /** `success(msg)`: code 100 with the message; no payload. */
  function SuccessMsg<T>(msg: Option<string>): (r: Envelope<T>)
    ensures r.respCode == Some(100) && r.msg == msg
    ensures r.data.None? && r.rows.None? && r.total.None?
  {
    WithDataAndMsg(Some(DeclaredCode(RespCodeEnum.Success)), None, msg)
  }

  /** `successData(data)`: code 100 with the single payload. */
  function SuccessData<T>(data: Option<T>): (r: Envelope<T>)
    ensures r.respCode == Some(100) && r.data == data
    ensures r.rows.None? && r.msg.None? && r.total.None?
  {
    WithData(Some(DeclaredCode(RespCodeEnum.Success)), data)
  }

  /** `successRows(rows, total)`: code 100 with a page of rows and its total. */
  function SuccessRows<T>(rows: Option<seq<T>>, total: Option<int>): (r: Envelope<T>)
    ensures r.respCode == Some(100) && r.rows == rows && r.total == total
    ensures r.data.None? && r.msg.None?
  {
    WithRows(Some(DeclaredCode(RespCodeEnum.Success)), rows, total)
  }

  /** `failed(msg)`: code 200 with the message; no payload. */
  function FailedMsg<T>(msg: Option<string>): (r: Envelope<T>)
    ensures r.respCode == Some(200) && r.msg == msg
    ensures r.data.None? && r.rows.None? && r.total.None?
  {
    WithDataAndMsg(Some(DeclaredCode(RespCodeEnum.Failed)), None, msg)
  }

  /** `failed()` delegates to `failed(null)`. */
  function Failed<T>(): (r: Envelope<T>)
    ensures r == FailedMsg(None)
    ensures r.respCode == Some(200) && r.data.None? && r.rows.None? && r.msg.None? && r.total.None?
  {
    FailedMsg(None)
  }

  /** `respWith(respCode, msg)`: only the code and the message are set. */
  function RespWithMsg<T>(respCode: Option<int>, msg: Option<string>): (r: Envelope<T>)
    ensures r.respCode == respCode && r.msg == msg
    ensures r.data.None? && r.rows.None? && r.total.None?
  {
    WithDataAndMsg(respCode, None, msg)
  }

  /** `respWith(respCode)` delegates to `respWith(respCode, null)`. */
  function RespWith<T>(respCode: Option<int>): (r: Envelope<T>)
    ensures r == RespWithMsg(respCode, None)
    ensures r.respCode == respCode && r.data.None? && r.rows.None? && r.msg.None? && r.total.None?
  {
    RespWithMsg(respCode, None)
  }

  /** `success()` and `success(null)` build the same envelope. */
  lemma SuccessIsSuccessWithNullMsg<T>()
    ensures Success<T>() == SuccessMsg<T>(None)
  {
  }

  /** The mutable result object. */
  class CommonResult<T> {
    var respCode: Option<int>
    var data: Option<T>
    var rows: Option<seq<T>>
    var msg: Option<string>
    var total: Option<int>

    /** The response body this object serialises to. */
    function Body(): Envelope<T>
      reads this
    {
      Envelope(respCode, data, rows, msg, total)
    }

    constructor ()
      ensures Body() == Blank()
    {
      respCode, data, rows, msg, total := None, None, None, None, None;
    }

    constructor FromCode(respCode: Option<int>)
      ensures Body() == Coded(respCode)
    {
      this.respCode, data, rows, msg, total := respCode, None, None, None, None;
    }

    constructor FromData(respCode: Option<int>, data: Option<T>)
      ensures Body() == WithData(respCode, data)
    {
      this.respCode, this.data, rows, msg, total := respCode, data, None, None, None;
    }

    constructor FromDataAndMsg(respCode: Option<int>, data: Option<T>, msg: Option<string>)
      ensures Body() == WithDataAndMsg(respCode, data, msg)
    {
      this.respCode, this.data, rows, this.msg, total := respCode, data, None, msg, None;
    }

    constructor FromRows(respCode: Option<int>, rows: Option<seq<T>>, total: Option<int>)
      ensures Body() == WithRows(respCode, rows, total)
    {
      this.respCode, data, this.rows, msg, this.total := respCode, None, rows, None, total;
    }

    method SetRespCode(respCode: Option<int>)
      modifies this
      ensures Body() == old(Body()).(respCode := respCode)
    {
      this.respCode := respCode;
    }

    method SetData(data: Option<T>)
      modifies this
      ensures Body() == old(Body()).(data := data)
    {
      this.data := data;
    }

    method SetRows(rows: Option<seq<T>>)
      modifies this
      ensures Body() == old(Body()).(rows := rows)
    {
      this.rows := rows;
    }

    method SetMsg(msg: Option<string>)
      modifies this
      ensures Body() == old(Body()).(msg := msg)
    {
      this.msg := msg;
    }

    method SetTotal(total: Option<int>)
      modifies this
      ensures Body() == old(Body()).(total := total)
    {
      this.total := total;
    }
  }
}
