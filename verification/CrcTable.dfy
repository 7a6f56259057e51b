/** The lookup table of checksum.c and crc32.c, sixteen rows of sixteen entries. */
module CrcTable {

  /** The entry at index t: its high four bits choose the row, its low four the column. */
  function Entry(t: bv8): bv32 {
    Cell((t >> 4) as bv4, (t & 0xF) as bv4)
  }

  function Cell(row: bv4, column: bv4): bv32 {
    match row
    case 0 => Row0(column)
    case 1 => Row1(column)
    case 2 => Row2(column)
    case 3 => Row3(column)
    case 4 => Row4(column)
    case 5 => Row5(column)
    case 6 => Row6(column)
    case 7 => Row7(column)
    case 8 => Row8(column)
    case 9 => Row9(column)
    case 10 => Row10(column)
    case 11 => Row11(column)
    case 12 => Row12(column)
    case 13 => Row13(column)
    case 14 => Row14(column)
    case _ => Row15(column)
  }

  function Row0(column: bv4): bv32 {
    match column
    case 0 => 0x00000000
    case 1 => 0x77073096
    case 2 => 0xEE0E612C
    case 3 => 0x990951BA
    case 4 => 0x076DC419
    case 5 => 0x706AF48F
    case 6 => 0xE963A535
    case 7 => 0x9E6495A3
    case 8 => 0x0EDB8832
    case 9 => 0x79DCB8A4
    case 10 => 0xE0D5E91E
    case 11 => 0x97D2D988
    case 12 => 0x09B64C2B
    case 13 => 0x7EB17CBD
    case 14 => 0xE7B82D07
    case _ => 0x90BF1D91
  }

  function Row1(column: bv4): bv32 {
    match column
    case 0 => 0x1DB71064
    case 1 => 0x6AB020F2
    case 2 => 0xF3B97148
    case 3 => 0x84BE41DE
    case 4 => 0x1ADAD47D
    case 5 => 0x6DDDE4EB
    case 6 => 0xF4D4B551
    case 7 => 0x83D385C7
    case 8 => 0x136C9856
    case 9 => 0x646BA8C0
    case 10 => 0xFD62F97A
    case 11 => 0x8A65C9EC
    case 12 => 0x14015C4F
    case 13 => 0x63066CD9
    case 14 => 0xFA0F3D63
    case _ => 0x8D080DF5
  }

  function Row2(column: bv4): bv32 {
    match column
    case 0 => 0x3B6E20C8
    case 1 => 0x4C69105E
    case 2 => 0xD56041E4
    case 3 => 0xA2677172
    case 4 => 0x3C03E4D1
    case 5 => 0x4B04D447
    case 6 => 0xD20D85FD
    case 7 => 0xA50AB56B
    case 8 => 0x35B5A8FA
    case 9 => 0x42B2986C
    case 10 => 0xDBBBC9D6
    case 11 => 0xACBCF940
    case 12 => 0x32D86CE3
    case 13 => 0x45DF5C75
    case 14 => 0xDCD60DCF
    case _ => 0xABD13D59
  }

  function Row3(column: bv4): bv32 {
    match column
    case 0 => 0x26D930AC
    case 1 => 0x51DE003A
    case 2 => 0xC8D75180
    case 3 => 0xBFD06116
    case 4 => 0x21B4F4B5
    case 5 => 0x56B3C423
    case 6 => 0xCFBA9599
    case 7 => 0xB8BDA50F
    case 8 => 0x2802B89E
    case 9 => 0x5F058808
    case 10 => 0xC60CD9B2
    case 11 => 0xB10BE924
    case 12 => 0x2F6F7C87
    case 13 => 0x58684C11
    case 14 => 0xC1611DAB
    case _ => 0xB6662D3D
  }

  function Row4(column: bv4): bv32 {
    match column
    case 0 => 0x76DC4190
    case 1 => 0x01DB7106
    case 2 => 0x98D220BC
    case 3 => 0xEFD5102A
    case 4 => 0x71B18589
    case 5 => 0x06B6B51F
    case 6 => 0x9FBFE4A5
    case 7 => 0xE8B8D433
    case 8 => 0x7807C9A2
    case 9 => 0x0F00F934
    case 10 => 0x9609A88E
    case 11 => 0xE10E9818
    case 12 => 0x7F6A0DBB
    case 13 => 0x086D3D2D
    case 14 => 0x91646C97
    case _ => 0xE6635C01
  }

  function Row5(column: bv4): bv32 {
    match column
    case 0 => 0x6B6B51F4
    case 1 => 0x1C6C6162
    case 2 => 0x856530D8
    case 3 => 0xF262004E
    case 4 => 0x6C0695ED
    case 5 => 0x1B01A57B
    case 6 => 0x8208F4C1
    case 7 => 0xF50FC457
    case 8 => 0x65B0D9C6
    case 9 => 0x12B7E950
    case 10 => 0x8BBEB8EA
    case 11 => 0xFCB9887C
    case 12 => 0x62DD1DDF
    case 13 => 0x15DA2D49
    case 14 => 0x8CD37CF3
    case _ => 0xFBD44C65
  }

  function Row6(column: bv4): bv32 {
    match column
    case 0 => 0x4DB26158
    case 1 => 0x3AB551CE
    case 2 => 0xA3BC0074
    case 3 => 0xD4BB30E2
    case 4 => 0x4ADFA541
    case 5 => 0x3DD895D7
    case 6 => 0xA4D1C46D
    case 7 => 0xD3D6F4FB
    case 8 => 0x4369E96A
    case 9 => 0x346ED9FC
    case 10 => 0xAD678846
    case 11 => 0xDA60B8D0
    case 12 => 0x44042D73
    case 13 => 0x33031DE5
    case 14 => 0xAA0A4C5F
    case _ => 0xDD0D7CC9
  }

  function Row7(column: bv4): bv32 {
    match column
    case 0 => 0x5005713C
    case 1 => 0x270241AA
    case 2 => 0xBE0B1010
    case 3 => 0xC90C2086
    case 4 => 0x5768B525
    case 5 => 0x206F85B3
    case 6 => 0xB966D409
    case 7 => 0xCE61E49F
    case 8 => 0x5EDEF90E
    case 9 => 0x29D9C998
    case 10 => 0xB0D09822
    case 11 => 0xC7D7A8B4
    case 12 => 0x59B33D17
    case 13 => 0x2EB40D81
    case 14 => 0xB7BD5C3B
    case _ => 0xC0BA6CAD
  }

  function Row8(column: bv4): bv32 {
    match column
    case 0 => 0xEDB88320
    case 1 => 0x9ABFB3B6
    case 2 => 0x03B6E20C
    case 3 => 0x74B1D29A
    case 4 => 0xEAD54739
    case 5 => 0x9DD277AF
    case 6 => 0x04DB2615
    case 7 => 0x73DC1683
    case 8 => 0xE3630B12
    case 9 => 0x94643B84
    case 10 => 0x0D6D6A3E
    case 11 => 0x7A6A5AA8
    case 12 => 0xE40ECF0B
    case 13 => 0x9309FF9D
    case 14 => 0x0A00AE27
    case _ => 0x7D079EB1
  }

  function Row9(column: bv4): bv32 {
    match column
    case 0 => 0xF00F9344
    case 1 => 0x8708A3D2
    case 2 => 0x1E01F268
    case 3 => 0x6906C2FE
    case 4 => 0xF762575D
    case 5 => 0x806567CB
    case 6 => 0x196C3671
    case 7 => 0x6E6B06E7
    case 8 => 0xFED41B76
    case 9 => 0x89D32BE0
    case 10 => 0x10DA7A5A
    case 11 => 0x67DD4ACC
    case 12 => 0xF9B9DF6F
    case 13 => 0x8EBEEFF9
    case 14 => 0x17B7BE43
    case _ => 0x60B08ED5
  }

  function Row10(column: bv4): bv32 {
    match column
    case 0 => 0xD6D6A3E8
    case 1 => 0xA1D1937E
    case 2 => 0x38D8C2C4
    case 3 => 0x4FDFF252
    case 4 => 0xD1BB67F1
    case 5 => 0xA6BC5767
    case 6 => 0x3FB506DD
    case 7 => 0x48B2364B
    case 8 => 0xD80D2BDA
    case 9 => 0xAF0A1B4C
    case 10 => 0x36034AF6
    case 11 => 0x41047A60
    case 12 => 0xDF60EFC3
    case 13 => 0xA867DF55
    case 14 => 0x316E8EEF
    case _ => 0x4669BE79
  }

  function Row11(column: bv4): bv32 {
    match column
    case 0 => 0xCB61B38C
    case 1 => 0xBC66831A
    case 2 => 0x256FD2A0
    case 3 => 0x5268E236
    case 4 => 0xCC0C7795
    case 5 => 0xBB0B4703
    case 6 => 0x220216B9
    case 7 => 0x5505262F
    case 8 => 0xC5BA3BBE
    case 9 => 0xB2BD0B28
    case 10 => 0x2BB45A92
    case 11 => 0x5CB36A04
    case 12 => 0xC2D7FFA7
    case 13 => 0xB5D0CF31
    case 14 => 0x2CD99E8B
    case _ => 0x5BDEAE1D
  }

  function Row12(column: bv4): bv32 {
    match column
    case 0 => 0x9B64C2B0
    case 1 => 0xEC63F226
    case 2 => 0x756AA39C
    case 3 => 0x026D930A
    case 4 => 0x9C0906A9
    case 5 => 0xEB0E363F
    case 6 => 0x72076785
    case 7 => 0x05005713
    case 8 => 0x95BF4A82
    case 9 => 0xE2B87A14
    case 10 => 0x7BB12BAE
    case 11 => 0x0CB61B38
    case 12 => 0x92D28E9B
    case 13 => 0xE5D5BE0D
    case 14 => 0x7CDCEFB7
    case _ => 0x0BDBDF21
  }

  function Row13(column: bv4): bv32 {
    match column
    case 0 => 0x86D3D2D4
    case 1 => 0xF1D4E242
    case 2 => 0x68DDB3F8
    case 3 => 0x1FDA836E
    case 4 => 0x81BE16CD
    case 5 => 0xF6B9265B
    case 6 => 0x6FB077E1
    case 7 => 0x18B74777
    case 8 => 0x88085AE6
    case 9 => 0xFF0F6A70
    case 10 => 0x66063BCA
    case 11 => 0x11010B5C
    case 12 => 0x8F659EFF
    case 13 => 0xF862AE69
    case 14 => 0x616BFFD3
    case _ => 0x166CCF45
  }

  function Row14(column: bv4): bv32 {
    match column
    case 0 => 0xA00AE278
    case 1 => 0xD70DD2EE
    case 2 => 0x4E048354
    case 3 => 0x3903B3C2
    case 4 => 0xA7672661
    case 5 => 0xD06016F7
    case 6 => 0x4969474D
    case 7 => 0x3E6E77DB
    case 8 => 0xAED16A4A
    case 9 => 0xD9D65ADC
    case 10 => 0x40DF0B66
    case 11 => 0x37D83BF0
    case 12 => 0xA9BCAE53
    case 13 => 0xDEBB9EC5
    case 14 => 0x47B2CF7F
    case _ => 0x30B5FFE9
  }

  function Row15(column: bv4): bv32 {
    match column
    case 0 => 0xBDBDF21C
    case 1 => 0xCABAC28A
    case 2 => 0x53B39330
    case 3 => 0x24B4A3A6
    case 4 => 0xBAD03605
    case 5 => 0xCDD70693
    case 6 => 0x54DE5729
    case 7 => 0x23D967BF
    case 8 => 0xB3667A2E
    case 9 => 0xC4614AB8
    case 10 => 0x5D681B02
    case 11 => 0x2A6F2B94
    case 12 => 0xB40BBE37
    case 13 => 0xC30C8EA1
    case 14 => 0x5A05DF1B
    case _ => 0x2D02EF8D
  }
}
